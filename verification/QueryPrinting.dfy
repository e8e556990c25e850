/**
 Printing queries and reading them back: tokens with any sign, quoted or not, and what
 texts, filters and OR groups made of them mean.
 */
module QueryPrinting {
  import opened Wrappers
  import opened JsText
  import opened QueryParser

  // ---------------------------------------------------------------------------
  // Tokens
  // ---------------------------------------------------------------------------

  /** An atom with its sign and the white space written before it. */
  datatype Token = Token(gap: string, modifier: Modifier, value: string, quoted: bool)

  /** What an unquoted word must escape: its end, escapes, quotes and signs. */
  predicate NeedsEscape(c: char) {
    IsSpace(c) || c == '\\' || c == '\"' || c == '+' || c == '-'
  }

  function EscapeWordCharacter(c: char): string {
    if NeedsEscape(c) then ['\\', c] else [c]
  }

  function EscapeWord(value: string): string {
    if value == "" then "" else EscapeWordCharacter(value[0]) + EscapeWord(value[1..])
  }

  function SignOf(modifier: Modifier): string {
    match modifier case Plus => "+" case Plain => "" case Minus => "-"
  }

  /** The token without its gap and sign. */
  function PrintAtom(token: Token): string {
    if token.quoted then "\"" + Escape(token.value) + "\"" else EscapeWord(token.value)
  }

  function PrintToken(token: Token): string {
    token.gap + SignOf(token.modifier) + PrintAtom(token)
  }

  function PrintTokens(tokens: seq<Token>): string {
    if tokens == [] then "" else PrintToken(tokens[0]) + PrintTokens(tokens[1..])
  }

  predicate AllSpace(gap: string) {
    forall k :: 0 <= k < |gap| ==> IsSpace(gap[k])
  }

  /** A word is not empty; a quoted text may be. */
  predicate PrintableToken(token: Token) {
    AllSpace(token.gap) && (!token.quoted ==> token.value != "")
  }

  /** There is white space after a word that is not the last token. */
  predicate Spaced(tokens: seq<Token>) {
    && (forall k :: 0 <= k < |tokens| ==> PrintableToken(tokens[k]))
    && (forall k :: 0 < k < |tokens| && !tokens[k - 1].quoted ==> tokens[k].gap != "")
  }

  predicate EndsWord(more: string) {
    more == "" || IsSpace(more[0])
  }

  lemma {:induction false} WordHead(c: char, tail: string)
    ensures Scan(EscapeWordCharacter(c) + tail, false) == Prepend([c], |EscapeWordCharacter(c)|, Scan(tail, false))
  {
    var rest := EscapeWordCharacter(c) + tail;
    if NeedsEscape(c) {
      assert rest[2..] == tail && rest[1] == c;
    } else {
      assert rest[1..] == tail && rest[0] == c;
    }
  }

  lemma {:induction false} Regrouped(a: string, b: string, c: string)
    ensures a + (b + c) == a + b + c
  {
  }

  lemma {:induction false} WordScans(value: string, more: string)
    requires EndsWord(more)
    ensures Scan(EscapeWord(value) + more, false) == Atom(value, |EscapeWord(value)|, false, true)
  {
    if value == "" {
      assert EscapeWord(value) + more == more;
    } else {
      WordScans(value[1..], more);
      WordHead(value[0], EscapeWord(value[1..]) + more);
      Regrouped(EscapeWordCharacter(value[0]), EscapeWord(value[1..]), more);
      assert [value[0]] + value[1..] == value;
    }
  }

  lemma {:induction false} WordStarts(value: string)
    requires value != ""
    ensures EscapeWord(value) != ""
    ensures var c := EscapeWord(value)[0]; !IsSpace(c) && c != '\"' && c != '+' && c != '-'
  {
    assert EscapeWord(value)[0] == EscapeWordCharacter(value[0])[0];
  }

  lemma {:induction false} AtomReads(token: Token, more: string)
    requires PrintableToken(token) && (!token.quoted ==> EndsWord(more))
    ensures var body := PrintAtom(token) + more;
      && body != "" && !IsSpace(body[0])
      && AtomAt(body) == Atom(token.value, |PrintAtom(token)|, token.quoted, true)
      && (token.modifier == Plain ==> ModifierAt(body) == Plain)
  {
    var body := PrintAtom(token) + more;
    if token.quoted {
      QuotedReads(token.value, more);
    } else {
      WordStarts(token.value);
      WordScans(token.value, more);
      assert body[0] == EscapeWord(token.value)[0];
    }
  }

  lemma {:induction false} SignReads(modifier: Modifier, body: string)
    requires body != "" && !IsSpace(body[0]) && (modifier == Plain ==> ModifierAt(body) == Plain)
    ensures var signed := SignOf(modifier) + body;
      && signed != "" && !IsSpace(signed[0]) && ModifierAt(signed) == modifier
      && body == if modifier == Plain then signed else signed[1..]
  {
    var signed := SignOf(modifier) + body;
    if modifier == Plain {
      assert signed == body;
    } else {
      assert signed[1] == body[0] && signed[1..] == body;
    }
  }

  lemma {:induction false} Joined(a: string, b: string, c: string, d: string)
    ensures a + b + c + d == a + (b + (c + d))
  {
  }

  lemma {:induction false} AfterText(text: string, more: string)
    ensures (text + more)[|text|..] == more
  {
  }

  lemma {:induction false} NextIs(rest: string, signed: string, body: string, modifier: Modifier, atom: Atom, more: string)
    requires signed != "" && !IsSpace(signed[0]) && body != "" && !IsSpace(body[0])
    requires TrimStart(rest) == signed && ModifierAt(signed) == modifier
    requires body == if modifier == Plain then signed else signed[1..]
    requires AtomAt(body) == atom && body[atom.length..] == more
    ensures Next(rest) == Some(Found(modifier, atom.value, atom.quoted, atom.closed, more))
  {
  }

  /** One printed token is read as itself, and what follows is left. */
  lemma {:induction false} TokenIsNext(token: Token, more: string)
    requires PrintableToken(token) && (!token.quoted ==> EndsWord(more))
    ensures Next(PrintToken(token) + more) == Some(Found(token.modifier, token.value, token.quoted, true, more))
  {
    var text := PrintAtom(token);
    var body := text + more;
    var signed := SignOf(token.modifier) + body;
    AtomReads(token, more);
    SignReads(token.modifier, body);
    GapIsSkipped(token.gap, signed);
    Joined(token.gap, SignOf(token.modifier), text, more);
    AfterText(text, more);
    NextIs(PrintToken(token) + more, signed, body, token.modifier, Atom(token.value, |text|, token.quoted, true), more);
  }

  /** What the loop makes of the tokens. */
  function Fold<S>(handle: Handler<S>, tokens: seq<Token>, st: S): S {
    if tokens == [] then st
    else Fold(handle, tokens[1..], handle(st, tokens[0].modifier, tokens[0].value, tokens[0].quoted, true))
  }

  /** What follows the tokens ends the last of them. */
  predicate Closes(tokens: seq<Token>, tail: string) {
    tokens != [] && !tokens[|tokens| - 1].quoted ==> EndsWord(tail)
  }

  lemma {:induction false} RestEndsWord(tokens: seq<Token>, tail: string)
    requires Spaced(tokens) && Closes(tokens, tail) && tokens != [] && !tokens[0].quoted
    ensures EndsWord(PrintTokens(tokens[1..]) + tail)
  {
    if |tokens| > 1 {
      var next := tokens[1];
      assert tokens[1..][0] == next && next.gap != "" && PrintableToken(next);
      assert (PrintTokens(tokens[1..]) + tail)[0] == PrintToken(next)[0] == next.gap[0];
    } else {
      assert PrintTokens(tokens[1..]) + tail == tail;
    }
  }

  lemma {:induction false} FirstIsNext(tokens: seq<Token>, tail: string)
    requires Spaced(tokens) && Closes(tokens, tail) && tokens != []
    ensures Next(PrintTokens(tokens) + tail) ==
      Some(Found(tokens[0].modifier, tokens[0].value, tokens[0].quoted, true, PrintTokens(tokens[1..]) + tail))
  {
    if !tokens[0].quoted { RestEndsWord(tokens, tail); }
    TokenIsNext(tokens[0], PrintTokens(tokens[1..]) + tail);
    Regrouped(PrintToken(tokens[0]), PrintTokens(tokens[1..]), tail);
  }

  lemma {:induction false} StepReads<S>(handle: Handler<S>, rest: string, found: Found, st: S)
    requires Next(rest) == Some(found)
    ensures ParseFrom(handle, rest, st) ==
      ParseFrom(handle, found.left, handle(st, found.modifier, found.value, found.quoted, found.closed))
  {
    ParseUnfolds(handle, rest, st);
  }

  lemma {:induction false} NothingReads<S>(handle: Handler<S>, st: S)
    ensures ParseFrom(handle, "", st) == st
  {
    assert Next("").None?;
  }

  lemma {:induction false} RestSpaced(tokens: seq<Token>, tail: string)
    requires Spaced(tokens) && Closes(tokens, tail) && tokens != []
    ensures Spaced(tokens[1..]) && Closes(tokens[1..], tail)
  {
    forall k | 0 < k < |tokens[1..]| && !tokens[1..][k - 1].quoted ensures tokens[1..][k].gap != "" {
      assert tokens[1..][k - 1] == tokens[k] && tokens[1..][k] == tokens[k + 1];
    }
  }

  /** Whatever is done with them, printed tokens are read as the tokens they are, and then what follows. */
  lemma {:induction false} PrintedTokensAreRead<S>(handle: Handler<S>, tokens: seq<Token>, tail: string, st: S)
    requires Spaced(tokens) && Closes(tokens, tail)
    ensures ParseFrom(handle, PrintTokens(tokens) + tail, st) == ParseFrom(handle, tail, Fold(handle, tokens, st))
    decreases |tokens|
  {
    if tokens == [] {
      assert PrintTokens(tokens) + tail == tail;
    } else {
      var found := Found(tokens[0].modifier, tokens[0].value, tokens[0].quoted, true, PrintTokens(tokens[1..]) + tail);
      FirstIsNext(tokens, tail);
      StepReads(handle, PrintTokens(tokens) + tail, found, st);
      RestSpaced(tokens, tail);
      PrintedTokensAreRead(handle, tokens[1..], tail, handle(st, found.modifier, found.value, found.quoted, found.closed));
    }
  }

  lemma {:induction false} FoldAppends<S>(handle: Handler<S>, a: seq<Token>, b: seq<Token>, st: S)
    ensures Fold(handle, a + b, st) == Fold(handle, b, Fold(handle, a, st))
    decreases |a|
  {
    if a == [] {
      assert a + b == b;
    } else {
      assert (a + b)[1..] == a[1..] + b;
      FoldAppends(handle, a[1..], b, handle(st, a[0].modifier, a[0].value, a[0].quoted, true));
    }
  }

  /** A quoted text without its closing quote. */
  function PrintUnclosed(token: Token): string {
    token.gap + SignOf(token.modifier) + "\"" + Escape(token.value)
  }

  lemma {:induction false} UnclosedScans(value: string)
    ensures Scan(Escape(value), true) == Atom(value, |Escape(value)|, true, false)
  {
    if value != "" {
      UnclosedScans(value[1..]);
      EscapedHead(value[0], Escape(value[1..]));
      assert [value[0]] + value[1..] == value;
    }
  }

  lemma {:induction false} UnclosedReads(value: string)
    ensures var body := "\"" + Escape(value);
      AtomAt(body) == Atom(value, |body|, true, false) && ModifierAt(body) == Plain && body[|body|..] == ""
  {
    var body := "\"" + Escape(value);
    UnclosedScans(value);
    assert body[1..] == Escape(value);
  }

  /** It is read to the end of the query and known not to be closed. */
  lemma {:induction false} UnclosedIsNext(token: Token)
    requires AllSpace(token.gap)
    ensures Next(PrintUnclosed(token)) == Some(Found(token.modifier, token.value, true, false, ""))
  {
    var text := Escape(token.value);
    var body := "\"" + text;
    var signed := SignOf(token.modifier) + body;
    UnclosedReads(token.value);
    SignReads(token.modifier, body);
    GapIsSkipped(token.gap, signed);
    Joined(token.gap, SignOf(token.modifier), "\"", text);
    NextIs(PrintUnclosed(token), signed, body, token.modifier, Atom(token.value, |body|, true, false), "");
  }
}
