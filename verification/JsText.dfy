/** The string operations of JavaScript that the modelled code relies on. */
module JsText {

  /** The characters that `trim` removes and that `\s` matches. */
  predicate IsSpace(c: char) {
    || c == '\t' || c == '\n' || c == '\U{000B}' || c == '\U{000C}' || c == '\r' || c == ' '
    || c == '\U{00A0}' || c == '\U{1680}' || '\U{2000}' <= c <= '\U{200A}'
    || c == '\U{2028}' || c == '\U{2029}' || c == '\U{202F}' || c == '\U{205F}' || c == '\U{3000}' || c == '\U{FEFF}'
  }

  function TrimStart(s: string): (r: string)
    ensures |r| <= |s| && (r != [] ==> !IsSpace(r[0]))
    ensures r == s[|s| - |r|..]
  {
    if s != [] && IsSpace(s[0]) then TrimStart(s[1..]) else s
  }

  function TrimEnd(s: string): (r: string)
    ensures |r| <= |s| && (r != [] ==> !IsSpace(r[|r| - 1]))
    ensures r == s[..|r|]
  {
    if s != [] && IsSpace(s[|s| - 1]) then TrimEnd(s[..|s| - 1]) else s
  }

  function Trim(s: string): (r: string)
    ensures |r| <= |s|
  {
    TrimEnd(TrimStart(s))
  }

  predicate Blank(s: string) {
    Trim(s) == []
  }

  lemma {:induction false} TrimIsIdempotent(s: string)
    ensures Trim(Trim(s)) == Trim(s)
  {
    var t := TrimStart(s);
    var r := TrimEnd(t);
    if r != [] {
      assert r[0] == t[0];
      assert TrimStart(r) == r;
      assert TrimEnd(r) == r;
    }
  }

  /** `replaceAll` with a string pattern: occurrences are found from left to right. */
  function ReplaceAll(s: string, pattern: string, insert: string): string
    requires pattern != []
  {
    if |s| < |pattern| then s
    else if s[..|pattern|] == pattern then insert + ReplaceAll(s[|pattern|..], pattern, insert)
    else [s[0]] + ReplaceAll(s[1..], pattern, insert)
  }

  predicate OccursAt(s: string, pattern: string, i: int) {
    0 <= i <= |s| - |pattern| && s[i..i + |pattern|] == pattern
  }

  ghost predicate Occurs(s: string, pattern: string) {
    exists i :: OccursAt(s, pattern, i)
  }

  lemma {:induction false} ReplaceNothing(s: string, pattern: string, insert: string)
    requires pattern != [] && !Occurs(s, pattern)
    ensures ReplaceAll(s, pattern, insert) == s
  {
    if |s| >= |pattern| {
      assert !OccursAt(s, pattern, 0);
      assert s[0..0 + |pattern|] == s[..|pattern|];
      forall i ensures !OccursAt(s[1..], pattern, i) {
        assert !OccursAt(s, pattern, i + 1);
        if 0 <= i <= |s[1..]| - |pattern| {
          assert s[1..][i..i + |pattern|] == s[i + 1..i + 1 + |pattern|];
        }
      }
      ReplaceNothing(s[1..], pattern, insert);
    }
  }

  lemma {:induction false} ReplaceShrinks(s: string, pattern: string, insert: string)
    requires pattern != [] && |insert| <= |pattern|
    ensures |ReplaceAll(s, pattern, insert)| <= |s|
  {
    if |s| >= |pattern| {
      if s[..|pattern|] == pattern {
        ReplaceShrinks(s[|pattern|..], pattern, insert);
      } else {
        ReplaceShrinks(s[1..], pattern, insert);
      }
    }
  }
}
