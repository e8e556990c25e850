/**
 What normalising a final answer decodes: a text whose line ends were written as escapes
 is given back as it was.
 */
module AnswerEscapes {
  import opened JsText
  import opened DecisionProtocol

  const Slash := '\\'
  const LineFeed := '\n'
  const Return := '\r'

  /** `s` with every line feed and every carriage return written as an escape. */
  function Escape(s: string): string {
    if s == [] then []
    else (if s[0] == LineFeed then [Slash, 'n'] else if s[0] == Return then [Slash, 'r'] else [s[0]]) + Escape(s[1..])
  }

  predicate StartsPair(s: string) {
    |s| >= 2 && s[0] == Return && s[1] == LineFeed
  }

  /** `Escape(s)` with the pairs decoded. */
  function PairsDecoded(s: string): string {
    if s == [] then []
    else if StartsPair(s) then [Return, LineFeed] + PairsDecoded(s[2..])
    else
      (if s[0] == LineFeed then [Slash, 'n'] else if s[0] == Return then [Slash, 'r'] else [s[0]]) + PairsDecoded(s[1..])
  }

  /** `Escape(s)` with the pairs and the line feeds decoded. */
  function FeedsDecoded(s: string): string {
    if s == [] then []
    else if StartsPair(s) then [Return, LineFeed] + FeedsDecoded(s[2..])
    else (if s[0] == Return then [Slash, 'r'] else [s[0]]) + FeedsDecoded(s[1..])
  }

  predicate NoSlash(s: string) {
    forall i :: 0 <= i < |s| ==> s[i] != Slash
  }

  lemma {:induction false} Skip(c: char, rest: string, pattern: string, insert: string)
    requires pattern != [] && (|rest| + 1 >= |pattern| ==> ([c] + rest)[..|pattern|] != pattern)
    ensures ReplaceAll([c] + rest, pattern, insert) == [c] + ReplaceAll(rest, pattern, insert)
  {
    assert ([c] + rest)[1..] == rest;
  }

  lemma {:induction false} Take(rest: string, pattern: string, insert: string)
    requires pattern != []
    ensures ReplaceAll(pattern + rest, pattern, insert) == insert + ReplaceAll(rest, pattern, insert)
  {
    assert (pattern + rest)[..|pattern|] == pattern && (pattern + rest)[|pattern|..] == rest;
  }

  /** A character that does not begin the pattern is passed over. */
  lemma {:induction false} SkipOther(c: char, rest: string, pattern: string, insert: string)
    requires pattern != [] && c != pattern[0]
    ensures ReplaceAll([c] + rest, pattern, insert) == [c] + ReplaceAll(rest, pattern, insert)
  {
    assert |rest| + 1 >= |pattern| ==> ([c] + rest)[..|pattern|][0] == c;
    Skip(c, rest, pattern, insert);
  }

  /** So is an escape that goes on otherwise than the pattern. */
  lemma {:induction false} SkipEscape(d: char, rest: string, pattern: string, insert: string)
    requires |pattern| >= 2 && pattern[0] == Slash && d != Slash
    requires |rest| + 2 >= |pattern| ==> ([Slash, d] + rest)[..|pattern|] != pattern
    ensures ReplaceAll([Slash, d] + rest, pattern, insert) == [Slash, d] + ReplaceAll(rest, pattern, insert)
  {
    assert [Slash, d] + rest == [Slash] + ([d] + rest);
    Skip(Slash, [d] + rest, pattern, insert);
    SkipOther(d, rest, pattern, insert);
    assert [Slash] + ([d] + ReplaceAll(rest, pattern, insert)) == [Slash, d] + ReplaceAll(rest, pattern, insert);
  }

  /** A decoded pair is passed over. */
  lemma {:induction false} SkipPair(rest: string, pattern: string, insert: string)
    requires pattern != [] && pattern[0] == Slash
    ensures ReplaceAll([Return, LineFeed] + rest, pattern, insert) == [Return, LineFeed] + ReplaceAll(rest, pattern, insert)
  {
    SkipOther(LineFeed, rest, pattern, insert);
    SkipOther(Return, [LineFeed] + rest, pattern, insert);
    assert [Return, LineFeed] + rest == [Return] + ([LineFeed] + rest);
    assert [Return] + ([LineFeed] + ReplaceAll(rest, pattern, insert)) ==
      [Return, LineFeed] + ReplaceAll(rest, pattern, insert);
  }

  lemma {:induction false} EscapeStarts(s: string)
    requires NoSlash(s) && |Escape(s)| >= 2 && Escape(s)[..2] == [Slash, 'n']
    ensures s != [] && s[0] == LineFeed
  {
    assert Escape(s)[..2][0] == Slash && Escape(s)[..2][1] == 'n';
  }

  lemma {:induction false} EscapedPair(s: string)
    requires StartsPair(s)
    ensures Escape(s) == [Slash, 'r', Slash, 'n'] + Escape(s[2..])
  {
    assert s[1..][1..] == s[2..];
    assert Escape(s) == [Slash, 'r'] + ([Slash, 'n'] + Escape(s[2..]));
  }

  lemma {:induction false} FirstPass(s: string)
    requires NoSlash(s)
    ensures ReplaceAll(Escape(s), [Slash, 'r', Slash, 'n'], [Return, LineFeed]) == PairsDecoded(s)
    decreases |s|
  {
    var pattern, insert := [Slash, 'r', Slash, 'n'], [Return, LineFeed];
    if s == [] {
    } else if StartsPair(s) {
      FirstPass(s[2..]);
      Take(Escape(s[2..]), pattern, insert);
      EscapedPair(s);
    } else {
      var rest := Escape(s[1..]);
      FirstPass(s[1..]);
      if s[0] == LineFeed {
        NotThePair('n', rest);
        SkipEscape('n', rest, pattern, insert);
      } else if s[0] == Return {
        LoneReturn(s);
        SkipEscape('r', rest, pattern, insert);
      } else {
        SkipOther(s[0], rest, pattern, insert);
      }
    }
  }

  lemma {:induction false} NotThePair(d: char, rest: string)
    requires d != 'r'
    ensures |rest| + 2 >= 4 ==> ([Slash, d] + rest)[..4] != [Slash, 'r', Slash, 'n']
  {
    if |rest| + 2 >= 4 {
      assert ([Slash, d] + rest)[..4][1] == d;
    }
  }

  lemma {:induction false} LoneReturn(s: string)
    requires NoSlash(s) && s != [] && s[0] == Return && !StartsPair(s)
    ensures var rest := Escape(s[1..]); |rest| + 2 >= 4 ==> ([Slash, 'r'] + rest)[..4] != [Slash, 'r', Slash, 'n']
  {
    var rest := Escape(s[1..]);
    if |rest| >= 2 {
      assert rest[..2] != [Slash, 'n'] by {
        if rest[..2] == [Slash, 'n'] { EscapeStarts(s[1..]); }
      }
      assert ([Slash, 'r'] + rest)[..4][2..] == rest[..2];
      assert [Slash, 'r', Slash, 'n'][2..] == [Slash, 'n'];
    }
  }

  lemma {:induction false} NotThe(d: char, other: char, rest: string)
    requires d != other
    ensures ([Slash, d] + rest)[..2] != [Slash, other]
  {
    assert ([Slash, d] + rest)[..2][1] == d;
  }

  lemma {:induction false} SecondPass(s: string)
    requires NoSlash(s)
    ensures ReplaceAll(PairsDecoded(s), [Slash, 'n'], [LineFeed]) == FeedsDecoded(s)
    decreases |s|
  {
    var pattern, insert := [Slash, 'n'], [LineFeed];
    if s == [] {
    } else if StartsPair(s) {
      var rest := PairsDecoded(s[2..]);
      SecondPass(s[2..]);
      SkipPair(rest, pattern, insert);
    } else {
      var rest := PairsDecoded(s[1..]);
      SecondPass(s[1..]);
      if s[0] == LineFeed {
        Take(rest, pattern, insert);
      } else if s[0] == Return {
        NotThe('r', 'n', rest);
        SkipEscape('r', rest, pattern, insert);
      } else {
        SkipOther(s[0], rest, pattern, insert);
      }
    }
  }

  lemma {:induction false} ThirdPass(s: string)
    requires NoSlash(s)
    ensures ReplaceAll(FeedsDecoded(s), [Slash, 'r'], [Return]) == s
    decreases |s|
  {
    var pattern, insert := [Slash, 'r'], [Return];
    if s == [] {
    } else if StartsPair(s) {
      var rest := FeedsDecoded(s[2..]);
      ThirdPass(s[2..]);
      SkipPair(rest, pattern, insert);
      assert s == [Return, LineFeed] + s[2..];
    } else {
      var rest := FeedsDecoded(s[1..]);
      ThirdPass(s[1..]);
      assert s == [s[0]] + s[1..];
      if s[0] == Return {
        Take(rest, pattern, insert);
      } else {
        SkipOther(s[0], rest, pattern, insert);
      }
    }
  }

  /** A text without backslashes is given back when its line ends were escaped, in whatever combination they occur. */
  lemma {:induction false} NormalizingUndoesEscaping(s: string)
    requires NoSlash(s)
    ensures NormalizeFinalAnswer(Escape(s)) == s
  {
    assert "\\r\\n" == [Slash, 'r', Slash, 'n'] && "\r\n" == [Return, LineFeed];
    assert "\\n" == [Slash, 'n'] && "\n" == [LineFeed] && "\\r" == [Slash, 'r'] && "\r" == [Return];
    FirstPass(s);
    SecondPass(s);
    ThirdPass(s);
  }
}
