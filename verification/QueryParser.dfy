/**
 The operator query parser: atoms with escapes and quotes, `+` and `-`, OR groups and
 filters. Lower-casing and the date check are parameters.
 */
module QueryParser {
  import opened Wrappers
  import opened JsText

  datatype Atom = Atom(value: string, length: nat, quoted: bool, closed: bool)

  datatype Code = UnclosedQuote | EmptyTerm | EmptyFilter | InvalidDate | DuplicateFilter | UnsupportedFilter

  datatype Diagnostic = Diagnostic(code: Code, value: string)

  datatype Locale = Locale(lower: string -> string, isValidDate: string -> bool)

  datatype Modifier = Plain | Plus | Minus

  const FilterNames: seq<string> := ["site", "domain", "filetype", "lang", "after", "before", "source", "type"]

  // ---------------------------------------------------------------------------
  // Atoms
  // ---------------------------------------------------------------------------

  /** The value at the start of `rest`, how many characters it takes and whether it is closed. */
  function Scan(rest: string, quoted: bool): (r: Atom)
    ensures r.length <= |rest|
    ensures rest != "" && (quoted || !IsSpace(rest[0])) ==> r.length > 0
  {
    if rest == "" then Atom("", 0, quoted, !quoted)
    else if rest[0] == '\\' && |rest| > 1 then
      var r := Scan(rest[2..], quoted);
      r.(value := [rest[1]] + r.value, length := r.length + 2)
    else if quoted && rest[0] == '\"' then Atom("", 1, quoted, true)
    else if !quoted && IsSpace(rest[0]) then Atom("", 0, quoted, true)
    else
      var r := Scan(rest[1..], quoted);
      r.(value := [rest[0]] + r.value, length := r.length + 1)
  }

  function AtomAt(rest: string): (r: Atom)
    requires rest != "" && !IsSpace(rest[0])
    ensures 0 < r.length <= |rest|
  {
    if rest[0] == '\"' then
      var r := Scan(rest[1..], true);
      r.(length := r.length + 1)
    else Scan(rest, false)
  }

  /** `r` with `value`, read over `length` characters, in front. */
  function Prepend(value: string, length: nat, r: Atom): Atom {
    Atom(value + r.value, length + r.length, r.quoted, r.closed)
  }

  lemma {:induction false} Regroup<T>(a: seq<T>, x: T, b: seq<T>)
    ensures a + ([x] + b) == a + [x] + b
  {
  }

  lemma {:induction false} PrependTwice(v: string, n: nat, w: string, k: nat, r: Atom)
    ensures Prepend(v, n, Prepend(w, k, r)) == Prepend(v + w, n + k, r)
  {
    assert v + (w + r.value) == v + w + r.value;
  }

  lemma {:induction false} PrependNothing(r: Atom)
    ensures Prepend("", 0, r) == r
  {
  }

  lemma {:induction false} PrependEnd(v: string, n: nat, k: nat, quoted: bool, closed: bool)
    ensures Prepend(v, n, Atom("", k, quoted, closed)) == Atom(v, n + k, quoted, closed)
  {
    assert v + "" == v;
  }

  /** One round of the loop of `readAtom`: the next character of the value, or the end of it. */
  method ReadCharacter(input: string, at: nat, quoted: bool) returns (piece: string, next: nat, more: bool,
                                                                      closed: bool)
    requires at < |input|
    ensures at <= next <= |input|
    ensures more ==> at < next && Scan(input[at..], quoted) == Prepend(piece, next - at, Scan(input[next..], quoted))
    ensures !more ==> Scan(input[at..], quoted) == Atom("", next - at, quoted, closed)
  {
    var character := input[at];
    ghost var rest := input[at..];
    assert rest[0] == character && rest[1..] == input[at + 1..];
    if character == '\\' && at + 1 < |input| {
      assert rest[2..] == input[at + 2..] && rest[1] == input[at + 1];
      return [input[at + 1]], at + 2, true, false;
    }
    if quoted && character == '\"' {
      return "", at + 1, false, true;
    }
    if !quoted && IsSpace(character) {
      return "", at, false, true;
    }
    return [character], at + 1, true, false;
  }

  /** The loop of `readAtom`, from where the value starts. */
  method ReadValue(input: string, first: nat, quoted: bool) returns (value: string, end: nat, closed: bool)
    requires first <= |input|
    ensures first <= end <= |input| && Scan(input[first..], quoted) == Atom(value, end - first, quoted, closed)
  {
    value, end, closed := "", first, !quoted;
    ghost var whole := Scan(input[first..], quoted);
    PrependNothing(whole);
    while end < |input|
      invariant first <= end <= |input|
      invariant whole == Prepend(value, end - first, Scan(input[end..], quoted))
    {
      var piece, next, more, done := ReadCharacter(input, end, quoted);
      if !more {
        PrependEnd(value, end - first, next - end, quoted, done);
        return value, next, done;
      }
      PrependTwice(value, end - first, piece, next - end, Scan(input[next..], quoted));
      value, end := value + piece, next;
    }
    PrependEnd(value, end - first, 0, quoted, !quoted);
    closed := !quoted;
  }

  method ReadAtom(input: string, start: nat) returns (value: string, end: nat, quoted: bool, closed: bool)
    requires start < |input| && !IsSpace(input[start])
    ensures start < end <= |input|
    ensures AtomAt(input[start..]) == Atom(value, end - start, quoted, closed)
  {
    quoted := input[start] == '\"';
    var first := if quoted then start + 1 else start;
    value, end, closed := ReadValue(input, first, quoted);
    assert quoted ==> input[start..][1..] == input[first..];
  }

  // ---------------------------------------------------------------------------
  // Terms
  // ---------------------------------------------------------------------------

  datatype State = State(
    required: seq<string>,
    optional: seq<string>,
    excluded: seq<string>,
    phrases: seq<string>,
    anyOf: seq<seq<string>>,
    positive: seq<string>,
    filters: map<string, string>,
    diagnostics: seq<Diagnostic>,
    lastPositive: Option<string>,
    orGroup: Option<seq<string>>,
    pendingOr: bool)

  function EmptyState(): State {
    State([], [], [], [], [], [], map[], [], None, None, false)
  }

  function Diagnose(st: State, code: Code, value: string): State {
    st.(diagnostics := st.diagnostics + [Diagnostic(code, value)])
  }

  function FinishOrGroup(st: State): State {
    st.(anyOf := if st.orGroup.Some? && st.orGroup.value != [] then st.anyOf + [st.orGroup.value] else st.anyOf,
        orGroup := None, pendingOr := false)
  }

  function AddFilter(locale: Locale, st: State, key: string, value: string): State {
    if value == "" then Diagnose(st, EmptyFilter, value)
    else if (key == "after" || key == "before") && !locale.isValidDate(value) then Diagnose(st, InvalidDate, value)
    else
      var noted := if key in st.filters then Diagnose(st, DuplicateFilter, value) else st;
      var kept := if key == "filetype" || key == "lang" || key == "source" || key == "type" then locale.lower(value) else value;
      noted.(filters := noted.filters[key := kept])
  }

  function ColonAt(value: string): int {
    if value == "" then -1
    else if value[0] == ':' then 0
    else if ColonAt(value[1..]) < 0 then -1
    else ColonAt(value[1..]) + 1
  }

  /** A term that is no OR and no filter. */
  function AddTerm(st: State, modifier: Modifier, value: string, quoted: bool): State {
    if modifier == Minus then
      var finished := FinishOrGroup(st);
      finished.(excluded := finished.excluded + [value])
    else
      var ready := if !st.pendingOr then FinishOrGroup(st) else st;
      var sorted :=
        if modifier == Plus then ready.(required := ready.required + [value])
        else if !quoted then ready.(optional := ready.optional + [value])
        else ready.(phrases := ready.phrases + [value]);
      sorted.(
        positive := sorted.positive + [value],
        orGroup := if sorted.pendingOr && sorted.orGroup.Some? then Some(sorted.orGroup.value + [value]) else sorted.orGroup,
        lastPositive := Some(value),
        pendingOr := false)
  }

  /** An unquoted, unmodified atom may be a filter. */
  function AddAtom(locale: Locale, st: State, modifier: Modifier, value: string, quoted: bool): State {
    var colon := if modifier == Plain && !quoted then ColonAt(value) else -1;
    if 0 < colon < |value| then
      var key := locale.lower(value[..colon]);
      if key in FilterNames then AddFilter(locale, FinishOrGroup(st), key, value[colon + 1..])
      else AddTerm(Diagnose(st, UnsupportedFilter, value), modifier, value, quoted)
    else AddTerm(st, modifier, value, quoted)
  }

  function Handle(locale: Locale, before: State, modifier: Modifier, value: string, quoted: bool, closed: bool): State {
    var st := if closed then before else Diagnose(before, UnclosedQuote, value);
    if value == "" then Diagnose(st, EmptyTerm, value)
    else if modifier == Plain && !quoted && locale.lower(value) == "or" then
      (if st.lastPositive.Some? then
         st.(orGroup := if st.orGroup.None? then Some([st.lastPositive.value]) else st.orGroup, pendingOr := true)
       else st)
    else AddAtom(locale, st, modifier, value, quoted)
  }

  /** The modifier at the start of `rest`: a sign counts only directly before a non-space. */
  function ModifierAt(rest: string): Modifier {
    if |rest| >= 2 && !IsSpace(rest[1]) then
      (if rest[0] == '+' then Plus else if rest[0] == '-' then Minus else Plain)
    else Plain
  }

  /** What the loop does with an atom: its modifier, value and whether it is quoted and closed. */
  type Handler<!S> = (S, Modifier, string, bool, bool) -> S

  /** An atom with its modifier, and the characters after it. */
  datatype Found = Found(modifier: Modifier, value: string, quoted: bool, closed: bool, left: string)

  /** The atom at the start of `body`, behind its modifier. */
  function FoundAt(modifier: Modifier, body: string): (r: Found)
    requires body != "" && !IsSpace(body[0])
    ensures |r.left| < |body|
  {
    var atom := AtomAt(body);
    Found(modifier, atom.value, atom.quoted, atom.closed, body[atom.length..])
  }

  /** The atom at the start of `trimmed`, with its modifier. */
  function FoundIn(trimmed: string): (r: Found)
    requires trimmed != "" && !IsSpace(trimmed[0])
    ensures |r.left| < |trimmed|
  {
    FoundAt(ModifierAt(trimmed), if ModifierAt(trimmed) == Plain then trimmed else trimmed[1..])
  }

  /** The next atom after any white space. */
  function Next(rest: string): (r: Option<Found>)
    ensures r.Some? ==> |r.value.left| < |rest|
  {
    var trimmed := TrimStart(rest);
    if trimmed == "" then None else Some(FoundIn(trimmed))
  }

  /** The whole loop, from the characters that are left. */
  function ParseFrom<S>(handle: Handler<S>, rest: string, st: S): S
    decreases |rest|
  {
    var next := Next(rest);
    if next.None? then st
    else ParseFrom(handle, next.value.left,
                   handle(st, next.value.modifier, next.value.value, next.value.quoted, next.value.closed))
  }

  function HandlerOf(locale: Locale): Handler<State> {
    (st: State, modifier: Modifier, value: string, quoted: bool, closed: bool) =>
      Handle(locale, st, modifier, value, quoted, closed)
  }

  function Flatten(groups: seq<seq<string>>): seq<string> {
    if groups == [] then [] else groups[0] + Flatten(groups[1..])
  }

  function Outside(terms: seq<string>, alternatives: seq<string>): seq<string> {
    if terms == [] then []
    else (if terms[0] in alternatives then [] else [terms[0]]) + Outside(terms[1..], alternatives)
  }

  datatype Query = Query(
    required: seq<string>, optional: seq<string>, excluded: seq<string>, phrases: seq<string>,
    anyOf: seq<seq<string>>, positive: seq<string>, filters: map<string, string>, diagnostics: seq<Diagnostic>)

  function QueryOf(last: State): Query {
    var st := FinishOrGroup(last);
    var alternatives := Flatten(st.anyOf);
    Query(Outside(st.required, alternatives), st.optional, st.excluded, Outside(st.phrases, alternatives),
          st.anyOf, st.positive, st.filters, st.diagnostics)
  }

  function Parse(locale: Locale, raw: string): Query {
    QueryOf(ParseFrom(HandlerOf(locale), raw, EmptyState()))
  }

  lemma {:induction false} SkipSpace(raw: string, index: nat)
    requires index < |raw| && IsSpace(raw[index])
    ensures TrimStart(raw[index..]) == TrimStart(raw[index + 1..])
  {
    assert raw[index..][1..] == raw[index + 1..];
  }

  method SkipSpaces(raw: string, start: nat) returns (index: nat)
    requires start <= |raw|
    ensures start <= index <= |raw| && TrimStart(raw[start..]) == raw[index..]
    ensures index < |raw| ==> !IsSpace(raw[index])
  {
    index := start;
    while index < |raw| && IsSpace(raw[index])
      invariant start <= index <= |raw|
      invariant TrimStart(raw[start..]) == TrimStart(raw[index..])
    {
      SkipSpace(raw, index);
      index := index + 1;
    }
    assert index < |raw| ==> raw[index..][0] == raw[index];
  }

  method ReadModifier(raw: string, start: nat) returns (modifier: Modifier, end: nat)
    requires start < |raw| && !IsSpace(raw[start])
    ensures start <= end < |raw| && !IsSpace(raw[end]) && modifier == ModifierAt(raw[start..])
    ensures raw[end..] == if modifier == Plain then raw[start..] else raw[start..][1..]
  {
    modifier, end := Plain, start;
    if (raw[start] == '+' || raw[start] == '-') && start + 1 < |raw| && !IsSpace(raw[start + 1]) {
      modifier := if raw[start] == '+' then Plus else Minus;
      end := start + 1;
    }
  }

  lemma {:induction false} Drop<T>(s: seq<T>, i: nat, j: nat)
    requires i <= j <= |s|
    ensures s[i..][j - i..] == s[j..]
  {
  }

  method ReadFoundAt(raw: string, start: nat, modifier: Modifier) returns (found: Found, end: nat)
    requires start < |raw| && !IsSpace(raw[start])
    ensures start < end <= |raw| && found == FoundAt(modifier, raw[start..]) && found.left == raw[end..]
  {
    var value, quoted, closed;
    value, end, quoted, closed := ReadAtom(raw, start);
    Drop(raw, start, end);
    found := Found(modifier, value, quoted, closed, raw[end..]);
  }

  method ReadFound(raw: string, start: nat) returns (found: Found, end: nat)
    requires start < |raw| && !IsSpace(raw[start])
    ensures start < end <= |raw| && found == FoundIn(raw[start..]) && found.left == raw[end..]
  {
    var modifier, first := ReadModifier(raw, start);
    found, end := ReadFoundAt(raw, first, modifier);
  }

  /** One round of the loop up to the atom: the index grows. */
  method ReadNext(raw: string, start: nat) returns (found: Option<Found>, end: nat)
    requires start <= |raw|
    ensures found == Next(raw[start..])
    ensures found.Some? ==> start < end <= |raw| && found.value.left == raw[end..]
  {
    var index := SkipSpaces(raw, start);
    if index >= |raw| { return None, index; }
    var next;
    next, end := ReadFound(raw, index);
    found := Some(next);
  }

  lemma {:induction false} ParseUnfolds<S>(handle: Handler<S>, rest: string, st: S)
    ensures var next := Next(rest);
      ParseFrom(handle, rest, st) ==
        if next.None? then st
        else ParseFrom(handle, next.value.left,
                       handle(st, next.value.modifier, next.value.value, next.value.quoted, next.value.closed))
  {
  }

  /** The loop of `parseQuery`. */
  method ParseLoop<S>(handle: Handler<S>, raw: string, start: S) returns (st: S)
    ensures st == ParseFrom(handle, raw, start)
  {
    st := start;
    var index := 0;
    assert raw[0..] == raw;
    while index < |raw|
      invariant 0 <= index <= |raw|
      invariant ParseFrom(handle, raw, start) == ParseFrom(handle, raw[index..], st)
    {
      var found, end := ReadNext(raw, index);
      if found.None? { return; }
      index := end;
      st := handle(st, found.value.modifier, found.value.value, found.value.quoted, found.value.closed);
    }
    assert raw[index..] == "";
    assert Next("").None?;
  }

  method ParseQuery(locale: Locale, raw: string) returns (r: Query)
    ensures r == Parse(locale, raw)
  {
    var st := ParseLoop(HandlerOf(locale), raw, EmptyState());
    r := QueryOf(st);
  }

  // ---------------------------------------------------------------------------
  // The round trip
  // ---------------------------------------------------------------------------

  datatype Kind = Required | Phrase | Excluded

  /** A term with the white space written before it. */
  datatype Term = Term(gap: string, kind: Kind, value: string)

  predicate Printable(term: Term) {
    term.value != "" && forall k :: 0 <= k < |term.gap| ==> IsSpace(term.gap[k])
  }

  function EscapeCharacter(c: char): string {
    if c == '\"' || c == '\\' then ['\\', c] else [c]
  }

  function Escape(value: string): string {
    if value == "" then "" else EscapeCharacter(value[0]) + Escape(value[1..])
  }

  function Sign(kind: Kind): string {
    match kind case Required => "+" case Phrase => "" case Excluded => "-"
  }

  function PrintTerm(term: Term): string {
    term.gap + Sign(term.kind) + "\"" + Escape(term.value) + "\""
  }

  function PrintTerms(terms: seq<Term>): string {
    if terms == [] then "" else PrintTerm(terms[0]) + PrintTerms(terms[1..])
  }

  function ValuesOf(terms: seq<Term>, kind: Kind): seq<string> {
    if terms == [] then []
    else (if terms[0].kind == kind then [terms[0].value] else []) + ValuesOf(terms[1..], kind)
  }

  lemma {:induction false} EscapedHead(c: char, tail: string)
    ensures Scan(EscapeCharacter(c) + tail, true) == Prepend([c], |EscapeCharacter(c)|, Scan(tail, true))
  {
    var rest := EscapeCharacter(c) + tail;
    if c == '\"' || c == '\\' {
      assert rest[2..] == tail && rest[1] == c;
    } else {
      assert rest[1..] == tail && rest[0] == c;
    }
  }

  lemma {:induction false} Associate<T>(a: seq<T>, b: seq<T>, c: seq<T>, d: seq<T>)
    ensures (a + b) + c + d == a + (b + c + d)
  {
  }

  lemma {:induction false} EscapedScans(value: string, more: string)
    ensures Scan(Escape(value) + "\"" + more, true) == Atom(value, |Escape(value)| + 1, true, true)
  {
    if value == "" {
      assert Escape(value) + "\"" + more == "\"" + more;
    } else {
      EscapedScans(value[1..], more);
      EscapedHead(value[0], Escape(value[1..]) + "\"" + more);
      Associate(EscapeCharacter(value[0]), Escape(value[1..]), "\"", more);
      assert [value[0]] + value[1..] == value;
    }
  }

  lemma {:induction false} QuotedReads(value: string, more: string)
    ensures AtomAt("\"" + Escape(value) + "\"" + more) == Atom(value, |Escape(value)| + 2, true, true)
  {
    var rest := "\"" + Escape(value) + "\"" + more;
    assert rest[1..] == Escape(value) + "\"" + more;
    EscapedScans(value, more);
  }

  lemma {:induction false} GapIsSkipped(gap: string, rest: string)
    requires forall k :: 0 <= k < |gap| ==> IsSpace(gap[k])
    requires rest != "" && !IsSpace(rest[0])
    ensures TrimStart(gap + rest) == rest
  {
    if gap == "" {
      assert gap + rest == rest;
    } else {
      assert (gap + rest)[1..] == gap[1..] + rest;
      GapIsSkipped(gap[1..], rest);
    }
  }

  function ModifierOf(kind: Kind): Modifier {
    match kind case Required => Plus case Phrase => Plain case Excluded => Minus
  }

  lemma {:induction false} SignIsModifier(kind: Kind, quoted: string)
    requires |quoted| >= 2 && quoted[0] == '\"' && !IsSpace('\"')
    ensures var signed := Sign(kind) + quoted;
      && signed != "" && !IsSpace(signed[0]) && ModifierAt(signed) == ModifierOf(kind)
      && quoted == if ModifierOf(kind) == Plain then signed else signed[1..]
  {
    var signed := Sign(kind) + quoted;
    if kind != Phrase {
      assert signed[1] == '\"' && signed[1..] == quoted;
    } else {
      assert signed == quoted;
    }
  }

  lemma {:induction false} PrintedTerm(term: Term, more: string)
    ensures PrintTerm(term) + more == term.gap + (Sign(term.kind) + ("\"" + Escape(term.value) + "\"" + more))
  {
    var quote, text, sign := "\"", Escape(term.value), Sign(term.kind);
    assert term.gap + sign + quote + text + quote + more == term.gap + (sign + (quote + text + quote + more));
  }

  /** One printed term is read as itself, and what follows is left. */
  lemma {:induction false} TermIsNext(term: Term, more: string)
    requires Printable(term)
    ensures Next(PrintTerm(term) + more) == Some(Found(ModifierOf(term.kind), term.value, true, true, more))
  {
    var quoted := "\"" + Escape(term.value) + "\"" + more;
    var signed := Sign(term.kind) + quoted;
    PrintedTerm(term, more);
    SignIsModifier(term.kind, quoted);
    GapIsSkipped(term.gap, signed);
    QuotedReads(term.value, more);
    AfterQuoted(term.value, more);
  }

  lemma {:induction false} AfterQuoted(value: string, more: string)
    ensures ("\"" + Escape(value) + "\"" + more)[|Escape(value)| + 2..] == more
  {
  }

  lemma {:induction false} QuotedTermIsAdded(locale: Locale, st: State, modifier: Modifier, value: string)
    requires value != ""
    ensures HandlerOf(locale)(st, modifier, value, true, true) == AddTerm(st, modifier, value, true)
  {
  }

  /** A parser state without OR groups. */
  predicate Settled(st: State) {
    st.orGroup == None && !st.pendingOr && st.anyOf == []
  }

  /** `r` is `st` with the terms added to the three lists. */
  predicate Adds(st: State, terms: seq<Term>, r: State) {
    && Settled(r)
    && r.required == st.required + ValuesOf(terms, Required)
    && r.phrases == st.phrases + ValuesOf(terms, Phrase)
    && r.excluded == st.excluded + ValuesOf(terms, Excluded)
    && r.optional == st.optional && r.filters == st.filters && r.diagnostics == st.diagnostics
  }

  lemma {:induction false} AddsOne(st: State, terms: seq<Term>, r: State)
    requires Settled(st) && terms != []
    requires Adds(AddTerm(st, ModifierOf(terms[0].kind), terms[0].value, true), terms[1..], r)
    ensures Adds(st, terms, r)
  {
    Regroup(st.required, terms[0].value, ValuesOf(terms[1..], Required));
    Regroup(st.phrases, terms[0].value, ValuesOf(terms[1..], Phrase));
    Regroup(st.excluded, terms[0].value, ValuesOf(terms[1..], Excluded));
  }

  lemma {:induction false} SettledStays(st: State, modifier: Modifier, value: string)
    requires Settled(st)
    ensures Settled(AddTerm(st, modifier, value, true))
  {
  }

  lemma {:induction false} TermsParse(locale: Locale, terms: seq<Term>, st: State)
    requires (forall k :: 0 <= k < |terms| ==> Printable(terms[k])) && Settled(st)
    ensures Adds(st, terms, ParseFrom(HandlerOf(locale), PrintTerms(terms), st))
    decreases |terms|
  {
    var handle := HandlerOf(locale);
    if terms == [] {
      assert Next("").None?;
      assert ParseFrom(handle, "", st) == st;
    } else {
      var next := AddTerm(st, ModifierOf(terms[0].kind), terms[0].value, true);
      TermIsNext(terms[0], PrintTerms(terms[1..]));
      ParseUnfolds(handle, PrintTerms(terms), st);
      QuotedTermIsAdded(locale, st, ModifierOf(terms[0].kind), terms[0].value);
      SettledStays(st, ModifierOf(terms[0].kind), terms[0].value);
      TermsParse(locale, terms[1..], next);
      AddsOne(st, terms, ParseFrom(handle, PrintTerms(terms[1..]), next));
    }
  }

  lemma {:induction false} NothingOutside(terms: seq<string>)
    ensures Outside(terms, []) == terms
  {
    if terms != [] {
      NothingOutside(terms[1..]);
    }
  }

  /**
   Printing any list of non-empty terms as escaped, quoted atoms with an optional sign,
   with any white space or none between them, and parsing it gives back the same
   required, phrase and excluded lists and nothing else.
   */
  lemma {:induction false} PrintedTermsParseBack(locale: Locale, terms: seq<Term>)
    requires forall k :: 0 <= k < |terms| ==> Printable(terms[k])
    ensures var q := Parse(locale, PrintTerms(terms));
      && q.required == ValuesOf(terms, Required) && q.phrases == ValuesOf(terms, Phrase)
      && q.excluded == ValuesOf(terms, Excluded)
      && q.optional == [] && q.anyOf == [] && q.filters == map[] && q.diagnostics == []
  {
    TermsParse(locale, terms, EmptyState());
    SettledQuery(ParseFrom(HandlerOf(locale), PrintTerms(terms), EmptyState()));
  }

  lemma {:induction false} SettledQuery(st: State)
    requires Settled(st)
    ensures QueryOf(st) ==
      Query(st.required, st.optional, st.excluded, st.phrases, [], st.positive, st.filters, st.diagnostics)
  {
    NothingOutside(st.required);
    NothingOutside(st.phrases);
  }
}
