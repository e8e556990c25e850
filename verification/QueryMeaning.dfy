/**
 What a printed query means: texts with their signs, filters and OR groups, each told from
 the items of the query and their positions.
 */
module QueryMeaning {
  import opened Wrappers
  import opened JsText
  import opened QueryParser
  import opened QueryPrinting
  import Permutations

  /** "OR" in some spelling and the text after it. */
  datatype Alternative = Alternative(gap: string, word: string, text: Token)

  datatype Item =
    | Text(text: Token)
    | Filter(gap: string, key: string, value: string)
    | OneOf(first: Token, others: seq<Alternative>)
    | Empty(gap: string, modifier: Modifier)

  function AlternativeTokens(others: seq<Alternative>): seq<Token> {
    if others == [] then []
    else
      var n := |others| - 1;
      AlternativeTokens(others[..n]) + [Token(others[n].gap, Plain, others[n].word, false), others[n].text]
  }

  function TokensOfItem(item: Item): seq<Token> {
    match item
    case Text(text) => [text]
    case Filter(gap, key, value) => [Token(gap, Plain, key + ":" + value, false)]
    case OneOf(first, others) => [first] + AlternativeTokens(others)
    case Empty(gap, modifier) => [Token(gap, modifier, "", true)]
  }

  function TokensOf(items: seq<Item>): seq<Token> {
    if items == [] then [] else TokensOf(items[..|items| - 1]) + TokensOfItem(items[|items| - 1])
  }

  // ---------------------------------------------------------------------------
  // What the items mean
  // ---------------------------------------------------------------------------

  /** The texts of an item, filters having none. */
  function TextsOfItem(item: Item): seq<Token> {
    match item
    case Text(text) => [text]
    case Filter(_, _, _) => []
    case OneOf(first, others) => [first] + TextsOfAlternatives(others)
    case Empty(_, _) => []
  }

  function TextsOfAlternatives(others: seq<Alternative>): (r: seq<Token>)
    ensures |r| == |others| && forall k :: 0 <= k < |others| ==> r[k] == others[k].text
  {
    seq(|others|, k requires 0 <= k < |others| => others[k].text)
  }

  function TextsOf(items: seq<Item>): seq<Token> {
    if items == [] then [] else TextsOf(items[..|items| - 1]) + TextsOfItem(items[|items| - 1])
  }

  /** Which of the four lists a text belongs to. */
  datatype List = RequiredList | OptionalList | PhraseList | ExcludedList

  function ListOf(text: Token): List {
    match text.modifier
    case Plus => RequiredList
    case Minus => ExcludedList
    case Plain => if text.quoted then PhraseList else OptionalList
  }

  /** The values of the texts that belong to a list, in order. */
  function Values(texts: seq<Token>, list: List): seq<string> {
    if texts == [] then []
    else
      var n := |texts| - 1;
      Values(texts[..n], list) + if ListOf(texts[n]) == list then [texts[n].value] else []
  }

  /** The values of the texts that are not excluded, in order. */
  function Positives(texts: seq<Token>): seq<string> {
    if texts == [] then []
    else
      var n := |texts| - 1;
      Positives(texts[..n]) + if texts[n].modifier != Minus then [texts[n].value] else []
  }

  /** The values of the OR groups, in order. */
  function Groups(items: seq<Item>): seq<seq<string>> {
    if items == [] then []
    else
      var n := |items| - 1;
      Groups(items[..n]) + if items[n].OneOf? then [GroupOf(items[n])] else []
  }

  function GroupOf(item: Item): (r: seq<string>)
    requires item.OneOf?
    ensures |r| == |item.others| + 1 && r[0] == item.first.value
    ensures forall k :: 0 <= k < |item.others| ==> r[k + 1] == item.others[k].text.value
  {
    [item.first.value] + seq(|item.others|, k requires 0 <= k < |item.others| => item.others[k].text.value)
  }

  /** Item `i` sets filter `key`: its value is there and, where a date is asked for, is one. */
  predicate Sets(locale: Locale, items: seq<Item>, key: string, i: nat) {
    && i < |items| && items[i].Filter? && locale.lower(items[i].key) == key && items[i].value != ""
    && (key == "after" || key == "before" ==> locale.isValidDate(items[i].value))
  }

  predicate SetsLast(locale: Locale, items: seq<Item>, key: string, i: nat) {
    Sets(locale, items, key, i) && forall j :: i < j < |items| ==> !Sets(locale, items, key, j)
  }

  predicate IsSet(locale: Locale, items: seq<Item>, key: string) {
    exists i :: 0 <= i < |items| && Sets(locale, items, key, i)
  }

  /** Four filters are kept in lower case. */
  function KeptValue(locale: Locale, key: string, value: string): string {
    if key in ["filetype", "lang", "source", "type"] then locale.lower(value) else value
  }

  /** A filter has the value of the last item that sets it. */
  ghost predicate FiltersAre(locale: Locale, items: seq<Item>, filters: map<string, string>) {
    && (forall key :: key in filters <==> IsSet(locale, items, key))
    && (forall key :: key in filters ==>
          exists i: nat :: SetsLast(locale, items, key, i) && filters[key] == KeptValue(locale, key, items[i].value))
  }

  /** A plain word with a colon in it that is no filter. */
  function TextNotes(texts: seq<Token>): seq<Diagnostic> {
    if texts == [] then []
    else
      var n := |texts| - 1;
      TextNotes(texts[..n]) +
      if texts[n].modifier == Plain && !texts[n].quoted && ColonAt(texts[n].value) > 0
      then [Diagnostic(UnsupportedFilter, texts[n].value)] else []
  }

  /** What is noted about the last of the items: an empty text, or a filter without value, with a bad date or set before. */
  function NotesOn(locale: Locale, items: seq<Item>): seq<Diagnostic>
    requires items != []
  {
    var n := |items| - 1;
    match items[n]
    case Filter(_, key, value) =>
      if value == "" then [Diagnostic(EmptyFilter, value)]
      else if !Sets(locale, items, locale.lower(key), n) then [Diagnostic(InvalidDate, value)]
      else if IsSet(locale, items[..n], locale.lower(key)) then [Diagnostic(DuplicateFilter, value)]
      else []
    case Empty(_, _) => [Diagnostic(EmptyTerm, "")]
    case _ => TextNotes(TextsOfItem(items[n]))
  }

  function Notes(locale: Locale, items: seq<Item>): seq<Diagnostic> {
    if items == [] then [] else Notes(locale, items[..|items| - 1]) + NotesOn(locale, items)
  }

  // ---------------------------------------------------------------------------
  // Queries that mean what they say
  // ---------------------------------------------------------------------------

  predicate IsOr(locale: Locale, word: string) {
    locale.lower(word) == "or"
  }

  /** Not empty, and as a plain word neither "or" nor a filter. */
  predicate GoodText(locale: Locale, text: Token) {
    && text.value != ""
    && (text.modifier == Plain && !text.quoted ==>
          && !IsOr(locale, text.value)
          && (ColonAt(text.value) > 0 ==> IsNoFilter(locale, text.value)))
  }

  predicate IsNoFilter(locale: Locale, value: string)
    requires ColonAt(value) > 0
  {
    ColonAt(value) < |value| && locale.lower(value[..ColonAt(value)]) !in FilterNames
  }

  predicate GoodAlternative(locale: Locale, other: Alternative) {
    other.word != "" && IsOr(locale, other.word) && GoodText(locale, other.text) && other.text.modifier != Minus
  }

  predicate GoodItem(locale: Locale, item: Item) {
    match item
    case Text(text) => GoodText(locale, text)
    case Filter(_, key, value) => key != "" && ColonAt(key) < 0 && locale.lower(key) in FilterNames
    case OneOf(first, others) =>
      && GoodText(locale, first) && first.modifier != Minus && others != []
      && forall k :: 0 <= k < |others| ==> GoodAlternative(locale, others[k])
    case Empty(_, _) => true
  }

  /** Lower-casing leaves colons alone as far as "or" goes. */
  ghost predicate NoColonInOr(locale: Locale) {
    forall word :: IsOr(locale, word) ==> ColonAt(word) < 0
  }

  /** The state of the parser says what the items mean. */
  ghost predicate Means(locale: Locale, items: seq<Item>, st: State) {
    && !st.pendingOr
    && st.required == Values(TextsOf(items), RequiredList) && st.optional == Values(TextsOf(items), OptionalList)
    && st.phrases == Values(TextsOf(items), PhraseList) && st.excluded == Values(TextsOf(items), ExcludedList)
    && st.positive == Positives(TextsOf(items))
    && FinishOrGroup(st).anyOf == Groups(items)
    && FiltersAre(locale, items, st.filters) && st.diagnostics == Notes(locale, items)
  }

  // ---------------------------------------------------------------------------
  // One token
  // ---------------------------------------------------------------------------

  function HandleToken(locale: Locale, st: State, token: Token): State {
    HandlerOf(locale)(st, token.modifier, token.value, token.quoted, true)
  }

  /** `r` is `st` with the texts in their lists and their notes. */
  ghost predicate Grows(st: State, r: State, texts: seq<Token>) {
    && r.required == st.required + Values(texts, RequiredList) && r.optional == st.optional + Values(texts, OptionalList)
    && r.phrases == st.phrases + Values(texts, PhraseList) && r.excluded == st.excluded + Values(texts, ExcludedList)
    && r.positive == st.positive + Positives(texts)
    && r.filters == st.filters && r.diagnostics == st.diagnostics + TextNotes(texts)
  }

  lemma {:induction false} TextIsAdded(locale: Locale, st: State, text: Token)
    requires GoodText(locale, text)
    ensures var noted := if TextNotes([text]) == [] then st else Diagnose(st, UnsupportedFilter, text.value);
      HandleToken(locale, st, text) == AddTerm(noted, text.modifier, text.value, text.quoted)
  {
    OneNote(text);
  }

  lemma {:induction false} OneNote(text: Token)
    ensures TextNotes([text]) == if text.modifier == Plain && !text.quoted && ColonAt(text.value) > 0
                                 then [Diagnostic(UnsupportedFilter, text.value)] else []
  {
    assert [text][..0] == [];
  }

  lemma {:induction false} OneValue(text: Token, list: List)
    ensures Values([text], list) == if ListOf(text) == list then [text.value] else []
  {
    assert [text][..0] == [];
  }

  lemma {:induction false} OnePositive(text: Token)
    ensures Positives([text]) == if text.modifier != Minus then [text.value] else []
  {
    assert [text][..0] == [];
  }

  lemma {:induction false} TermGoesToItsList(st: State, text: Token)
    requires !st.pendingOr || (text.modifier != Minus && st.orGroup.Some?)
    ensures var r := AddTerm(st, text.modifier, text.value, text.quoted);
      && r.required == st.required + Values([text], RequiredList) && r.optional == st.optional + Values([text], OptionalList)
      && r.phrases == st.phrases + Values([text], PhraseList) && r.excluded == st.excluded + Values([text], ExcludedList)
      && r.positive == st.positive + Positives([text])
      && r.filters == st.filters && r.diagnostics == st.diagnostics && !r.pendingOr
  {
    OnePositive(text);
    OneValue(text, RequiredList);
    OneValue(text, OptionalList);
    OneValue(text, PhraseList);
    OneValue(text, ExcludedList);
  }

  /** A text outside a group ends the group before it. */
  lemma {:induction false} TextAdds(locale: Locale, st: State, text: Token)
    requires GoodText(locale, text) && !st.pendingOr
    ensures var r := HandleToken(locale, st, text);
      && Grows(st, r, [text]) && !r.pendingOr && r.orGroup.None? && r.anyOf == FinishOrGroup(st).anyOf
      && (text.modifier != Minus ==> r.lastPositive == Some(text.value))
  {
    TextIsAdded(locale, st, text);
    OneNote(text);
    var noted := if TextNotes([text]) == [] then st else Diagnose(st, UnsupportedFilter, text.value);
    TermGoesToItsList(noted, text);
  }

  // ---------------------------------------------------------------------------
  // One group
  // ---------------------------------------------------------------------------

  /** The parser has read these alternatives of a group. */
  ghost predicate InGroup(st: State, anyOf: seq<seq<string>>, values: seq<string>) {
    && !st.pendingOr && st.anyOf == anyOf && values != [] && st.lastPositive.Some?
    && (if |values| == 1 then st.orGroup.None? && st.lastPositive == Some(values[0]) else st.orGroup == Some(values))
  }

  lemma {:induction false} OrIsHandled(locale: Locale, st: State, gap: string, word: string)
    requires word != "" && IsOr(locale, word) && st.lastPositive.Some?
    ensures HandleToken(locale, st, Token(gap, Plain, word, false)) ==
      st.(orGroup := if st.orGroup.None? then Some([st.lastPositive.value]) else st.orGroup, pendingOr := true)
  {
  }

  lemma {:induction false} AlternativeJoins(st: State, text: Token, values: seq<string>)
    requires text.modifier != Minus && st.pendingOr && st.orGroup == Some(values) && values != []
    ensures InGroup(AddTerm(st, text.modifier, text.value, text.quoted), st.anyOf, values + [text.value])
  {
  }

  /** "OR" and a text: the text joins the group of the one before. */
  lemma {:induction false} AlternativeAdds(locale: Locale, st: State, other: Alternative, anyOf: seq<seq<string>>,
                                           values: seq<string>)
    requires GoodAlternative(locale, other) && InGroup(st, anyOf, values)
    ensures var r := HandleToken(locale, HandleToken(locale, st, Token(other.gap, Plain, other.word, false)), other.text);
      InGroup(r, anyOf, values + [other.text.value]) && Grows(st, r, [other.text])
  {
    var waiting := HandleToken(locale, st, Token(other.gap, Plain, other.word, false));
    OrIsHandled(locale, st, other.gap, other.word);
    assert |values| == 1 ==> [values[0]] == values;
    TextIsAdded(locale, waiting, other.text);
    OneNote(other.text);
    var noted := if TextNotes([other.text]) == [] then waiting else Diagnose(waiting, UnsupportedFilter, other.text.value);
    TermGoesToItsList(noted, other.text);
    AlternativeJoins(noted, other.text, values);
  }

  lemma {:induction false} ValuesAppend(a: seq<Token>, b: seq<Token>, list: List)
    ensures Values(a + b, list) == Values(a, list) + Values(b, list)
    decreases |b|
  {
    if b == [] {
      assert a + b == a;
    } else {
      var n := |b| - 1;
      assert (a + b)[..|a + b| - 1] == a + b[..n];
      ValuesAppend(a, b[..n], list);
    }
  }

  lemma {:induction false} PositivesAppend(a: seq<Token>, b: seq<Token>)
    ensures Positives(a + b) == Positives(a) + Positives(b)
    decreases |b|
  {
    if b == [] {
      assert a + b == a;
    } else {
      var n := |b| - 1;
      assert (a + b)[..|a + b| - 1] == a + b[..n];
      PositivesAppend(a, b[..n]);
    }
  }

  lemma {:induction false} NotesAppend(a: seq<Token>, b: seq<Token>)
    ensures TextNotes(a + b) == TextNotes(a) + TextNotes(b)
    decreases |b|
  {
    if b == [] {
      assert a + b == a;
    } else {
      var n := |b| - 1;
      assert (a + b)[..|a + b| - 1] == a + b[..n];
      NotesAppend(a, b[..n]);
    }
  }

  lemma {:induction false} AddedTwice<T>(x: seq<T>, y: seq<T>, z: seq<T>, a: seq<T>, b: seq<T>)
    requires y == x + a && z == y + b
    ensures z == x + (a + b)
  {
  }

  lemma {:induction false} ListTwice(x: seq<string>, y: seq<string>, z: seq<string>, a: seq<Token>, b: seq<Token>, list: List)
    requires y == x + Values(a, list) && z == y + Values(b, list)
    ensures z == x + Values(a + b, list)
  {
    AddedTwice(x, y, z, Values(a, list), Values(b, list));
    ValuesAppend(a, b, list);
  }

  lemma {:induction false} GrowsTwice(st: State, r: State, s: State, a: seq<Token>, b: seq<Token>)
    requires Grows(st, r, a) && Grows(r, s, b)
    ensures Grows(st, s, a + b)
  {
    ListTwice(st.required, r.required, s.required, a, b, RequiredList);
    ListTwice(st.optional, r.optional, s.optional, a, b, OptionalList);
    ListTwice(st.phrases, r.phrases, s.phrases, a, b, PhraseList);
    ListTwice(st.excluded, r.excluded, s.excluded, a, b, ExcludedList);
    AddedTwice(st.positive, r.positive, s.positive, Positives(a), Positives(b));
    PositivesAppend(a, b);
    AddedTwice(st.diagnostics, r.diagnostics, s.diagnostics, TextNotes(a), TextNotes(b));
    NotesAppend(a, b);
  }

  lemma {:induction false} FoldOne(locale: Locale, st: State, token: Token)
    ensures Fold(HandlerOf(locale), [token], st) == HandleToken(locale, st, token)
  {
    assert [token][1..] == [];
  }

  lemma {:induction false} FoldTwo(locale: Locale, st: State, a: Token, b: Token)
    ensures Fold(HandlerOf(locale), [a, b], st) == HandleToken(locale, HandleToken(locale, st, a), b)
  {
    assert [a, b][1..] == [b];
    FoldOne(locale, HandleToken(locale, st, a), b);
  }

  /** One more alternative. */
  lemma {:induction false} AlternativesAddOne(locale: Locale, st: State, before: State, first: string, others: seq<Alternative>,
                                              anyOf: seq<seq<string>>)
    requires others != [] && GoodAlternative(locale, others[|others| - 1])
    requires before == Fold(HandlerOf(locale), AlternativeTokens(others[..|others| - 1]), st)
    requires InGroup(before, anyOf, [first] + TextValues(others[..|others| - 1]))
    requires Grows(st, before, TextsOfAlternatives(others[..|others| - 1]))
    ensures var r := Fold(HandlerOf(locale), AlternativeTokens(others), st);
      InGroup(r, anyOf, [first] + TextValues(others)) && Grows(st, r, TextsOfAlternatives(others))
  {
    var n := |others| - 1;
    var last := others[n];
    var word := Token(last.gap, Plain, last.word, false);
    FoldAppends(HandlerOf(locale), AlternativeTokens(others[..n]), [word, last.text], st);
    FoldTwo(locale, before, word, last.text);
    var r := Fold(HandlerOf(locale), AlternativeTokens(others), st);
    AlternativeAdds(locale, before, last, anyOf, [first] + TextValues(others[..n]));
    GrowsTwice(st, before, r, TextsOfAlternatives(others[..n]), [last.text]);
    assert TextsOfAlternatives(others) == TextsOfAlternatives(others[..n]) + [last.text];
    assert [first] + TextValues(others) == [first] + TextValues(others[..n]) + [last.text.value];
  }

  lemma {:induction false} AlternativesAdd(locale: Locale, st: State, first: string, others: seq<Alternative>,
                                           anyOf: seq<seq<string>>)
    requires InGroup(st, anyOf, [first]) && forall k :: 0 <= k < |others| ==> GoodAlternative(locale, others[k])
    ensures var r := Fold(HandlerOf(locale), AlternativeTokens(others), st);
      InGroup(r, anyOf, [first] + TextValues(others)) && Grows(st, r, TextsOfAlternatives(others))
    decreases |others|
  {
    if others == [] {
      assert [first] + TextValues(others) == [first];
    } else {
      var init := others[..|others| - 1];
      AlternativesAdd(locale, st, first, init, anyOf);
      AlternativesAddOne(locale, st, Fold(HandlerOf(locale), AlternativeTokens(init), st), first, others, anyOf);
    }
  }

  function TextValues(others: seq<Alternative>): seq<string> {
    seq(|others|, k requires 0 <= k < |others| => others[k].text.value)
  }

  /** A group is there as soon as it is finished. */
  lemma {:induction false} GroupAdds(locale: Locale, st: State, item: Item)
    requires GoodItem(locale, item) && item.OneOf? && !st.pendingOr
    ensures var r := Fold(HandlerOf(locale), TokensOfItem(item), st);
      && Grows(st, r, TextsOfItem(item)) && !r.pendingOr
      && FinishOrGroup(r).anyOf == FinishOrGroup(st).anyOf + [GroupOf(item)]
  {
    var first, others := item.first, item.others;
    var started := HandleToken(locale, st, first);
    var r := Fold(HandlerOf(locale), TokensOfItem(item), st);
    TextAdds(locale, st, first);
    FoldOne(locale, st, first);
    FoldAppends(HandlerOf(locale), [first], AlternativeTokens(others), st);
    AlternativesAdd(locale, started, first.value, others, FinishOrGroup(st).anyOf);
    GrowsTwice(st, started, r, [first], TextsOfAlternatives(others));
    assert GroupOf(item) == [first.value] + TextValues(others);
  }

  // ---------------------------------------------------------------------------
  // One filter
  // ---------------------------------------------------------------------------

  lemma {:induction false} ColonBehind(key: string, value: string)
    requires ColonAt(key) < 0
    ensures ColonAt(key + ":" + value) == |key|
  {
    if key != "" {
      assert (key + ":" + value)[1..] == key[1..] + ":" + value;
      ColonBehind(key[1..], value);
    }
  }

  lemma {:induction false} FilterIsAdded(locale: Locale, st: State, gap: string, key: string, value: string)
    requires NoColonInOr(locale) && key != "" && ColonAt(key) < 0 && locale.lower(key) in FilterNames
    ensures HandleToken(locale, st, Token(gap, Plain, key + ":" + value, false)) ==
      AddFilter(locale, FinishOrGroup(st), locale.lower(key), value)
  {
    var text := key + ":" + value;
    ColonBehind(key, value);
    assert text[..|key|] == key && text[|key| + 1..] == value;
    assert !IsOr(locale, text);
  }

  /** Item `i` says the same of a longer list. */
  lemma {:induction false} SetsStays(locale: Locale, items: seq<Item>, item: Item, key: string, i: nat)
    requires i < |items|
    ensures Sets(locale, items + [item], key, i) <==> Sets(locale, items, key, i)
  {
  }

  lemma {:induction false} IsSetNext(locale: Locale, items: seq<Item>, item: Item, key: string)
    ensures IsSet(locale, items + [item], key) <==> IsSet(locale, items, key) || Sets(locale, items + [item], key, |items|)
  {
    var more := items + [item];
    if i :| 0 <= i < |more| && Sets(locale, more, key, i) {
      if i < |items| { SetsStays(locale, items, item, key, i); }
    }
    if i :| 0 <= i < |items| && Sets(locale, items, key, i) {
      SetsStays(locale, items, item, key, i);
    }
  }

  lemma {:induction false} LastStays(locale: Locale, items: seq<Item>, item: Item, key: string, i: nat)
    requires SetsLast(locale, items, key, i) && !Sets(locale, items + [item], key, |items|)
    ensures SetsLast(locale, items + [item], key, i)
  {
    var more := items + [item];
    SetsStays(locale, items, item, key, i);
    forall j | i < j < |more| ensures !Sets(locale, more, key, j) {
      if j < |items| { SetsStays(locale, items, item, key, j); }
    }
  }

  /** An item that sets nothing leaves the filters as they were. */
  lemma {:induction false} FiltersStay(locale: Locale, items: seq<Item>, item: Item, filters: map<string, string>)
    requires FiltersAre(locale, items, filters)
    requires forall key :: !Sets(locale, items + [item], key, |items|)
    ensures FiltersAre(locale, items + [item], filters)
  {
    var more := items + [item];
    forall key ensures key in filters <==> IsSet(locale, more, key) { IsSetNext(locale, items, item, key); }
    forall key | key in filters
      ensures exists i: nat :: SetsLast(locale, more, key, i) && filters[key] == KeptValue(locale, key, more[i].value)
    {
      var i: nat :| SetsLast(locale, items, key, i) && filters[key] == KeptValue(locale, key, items[i].value);
      LastStays(locale, items, item, key, i);
    }
  }

  /** An item that sets a filter gives it its value. */
  lemma {:induction false} FilterIsSet(locale: Locale, items: seq<Item>, item: Item, filters: map<string, string>, key: string)
    requires FiltersAre(locale, items, filters) && Sets(locale, items + [item], key, |items|)
    ensures FiltersAre(locale, items + [item], filters[key := KeptValue(locale, key, item.value)])
  {
    var more := items + [item];
    var after := filters[key := KeptValue(locale, key, item.value)];
    forall other ensures other in after <==> IsSet(locale, more, other) { IsSetNext(locale, items, item, other); }
    forall other | other in after
      ensures exists i: nat :: SetsLast(locale, more, other, i) && after[other] == KeptValue(locale, other, more[i].value)
    {
      if other == key {
        assert SetsLast(locale, more, key, |items|);
      } else {
        var i: nat :| SetsLast(locale, items, other, i) && filters[other] == KeptValue(locale, other, items[i].value);
        assert !Sets(locale, more, other, |items|);
        LastStays(locale, items, item, other, i);
      }
    }
  }

  lemma {:induction false} LastNote(locale: Locale, items: seq<Item>, item: Item)
    requires item.Filter?
    ensures var key := locale.lower(item.key);
      NotesOn(locale, items + [item]) ==
        if item.value == "" then [Diagnostic(EmptyFilter, item.value)]
        else if !Sets(locale, items + [item], key, |items|) then [Diagnostic(InvalidDate, item.value)]
        else if IsSet(locale, items, key) then [Diagnostic(DuplicateFilter, item.value)]
        else []
  {
    assert (items + [item])[..|items|] == items;
  }

  /** A filter that sets its value, and notes when it was set before. */
  lemma {:induction false} SettingFilter(locale: Locale, items: seq<Item>, st: State, item: Item)
    requires item.Filter? && FiltersAre(locale, items, st.filters)
    requires Sets(locale, items + [item], locale.lower(item.key), |items|)
    ensures var r := AddFilter(locale, st, locale.lower(item.key), item.value);
      && FiltersAre(locale, items + [item], r.filters)
      && r.diagnostics == st.diagnostics + NotesOn(locale, items + [item])
      && r == st.(filters := r.filters, diagnostics := r.diagnostics)
  {
    var key := locale.lower(item.key);
    FilterIsSet(locale, items, item, st.filters, key);
    LastNote(locale, items, item);
    assert key in st.filters <==> IsSet(locale, items, key);
  }

  /** A filter without a value or with a bad date sets nothing. */
  lemma {:induction false} RefusedFilter(locale: Locale, items: seq<Item>, st: State, item: Item)
    requires item.Filter? && FiltersAre(locale, items, st.filters)
    requires !Sets(locale, items + [item], locale.lower(item.key), |items|)
    ensures var r := AddFilter(locale, st, locale.lower(item.key), item.value);
      && FiltersAre(locale, items + [item], r.filters)
      && r.diagnostics == st.diagnostics + NotesOn(locale, items + [item])
      && r == st.(filters := r.filters, diagnostics := r.diagnostics)
  {
    forall other ensures !Sets(locale, items + [item], other, |items|) {}
    FiltersStay(locale, items, item, st.filters);
    LastNote(locale, items, item);
  }

  /** What a filter item changes. */
  lemma {:induction false} FilterMeans(locale: Locale, items: seq<Item>, st: State, item: Item)
    requires item.Filter? && FiltersAre(locale, items, st.filters)
    ensures var r := AddFilter(locale, st, locale.lower(item.key), item.value);
      && FiltersAre(locale, items + [item], r.filters)
      && r.diagnostics == st.diagnostics + NotesOn(locale, items + [item])
      && r == st.(filters := r.filters, diagnostics := r.diagnostics)
  {
    if Sets(locale, items + [item], locale.lower(item.key), |items|) {
      SettingFilter(locale, items, st, item);
    } else {
      RefusedFilter(locale, items, st, item);
    }
  }

  // ---------------------------------------------------------------------------
  // All items
  // ---------------------------------------------------------------------------

  lemma {:induction false} ItemsNext(locale: Locale, items: seq<Item>, item: Item)
    ensures var more := items + [item];
      && TokensOf(more) == TokensOf(items) + TokensOfItem(item) && TextsOf(more) == TextsOf(items) + TextsOfItem(item)
      && Groups(more) == Groups(items) + (if item.OneOf? then [GroupOf(item)] else [])
      && Notes(locale, more) == Notes(locale, items) + NotesOn(locale, more)
  {
    assert (items + [item])[..|items|] == items;
  }

  lemma {:induction false} ListsGrow(st: State, r: State, texts: seq<Token>, more: seq<Token>)
    requires st.required == Values(texts, RequiredList) && st.optional == Values(texts, OptionalList)
    requires st.phrases == Values(texts, PhraseList) && st.excluded == Values(texts, ExcludedList)
    requires st.positive == Positives(texts) && Grows(st, r, more)
    ensures r.required == Values(texts + more, RequiredList) && r.optional == Values(texts + more, OptionalList)
    ensures r.phrases == Values(texts + more, PhraseList) && r.excluded == Values(texts + more, ExcludedList)
    ensures r.positive == Positives(texts + more)
  {
    PositivesAppend(texts, more);
    ValuesAppend(texts, more, RequiredList);
    ValuesAppend(texts, more, OptionalList);
    ValuesAppend(texts, more, PhraseList);
    ValuesAppend(texts, more, ExcludedList);
  }

  lemma {:induction false} GrownMeans(locale: Locale, items: seq<Item>, st: State, item: Item, r: State)
    requires Means(locale, items, st) && (item.Text? || item.OneOf?) && Grows(st, r, TextsOfItem(item)) && !r.pendingOr
    requires FinishOrGroup(r).anyOf == FinishOrGroup(st).anyOf + if item.OneOf? then [GroupOf(item)] else []
    ensures Means(locale, items + [item], r)
  {
    ItemsNext(locale, items, item);
    assert (items + [item])[|items|] == item;
    FiltersStay(locale, items, item, st.filters);
    ListsGrow(st, r, TextsOf(items), TextsOfItem(item));
  }

  lemma {:induction false} WordsMeanNext(locale: Locale, items: seq<Item>, st: State, item: Item)
    requires Means(locale, items, st) && GoodItem(locale, item) && (item.Text? || item.OneOf?)
    ensures Means(locale, items + [item], Fold(HandlerOf(locale), TokensOfItem(item), st))
  {
    if item.Text? {
      FoldOne(locale, st, item.text);
      TextAdds(locale, st, item.text);
      assert FinishOrGroup(st).anyOf + [] == FinishOrGroup(st).anyOf;
    } else {
      GroupAdds(locale, st, item);
    }
    GrownMeans(locale, items, st, item, Fold(HandlerOf(locale), TokensOfItem(item), st));
  }

  lemma {:induction false} FilterMeansNext(locale: Locale, items: seq<Item>, st: State, item: Item)
    requires NoColonInOr(locale) && Means(locale, items, st) && GoodItem(locale, item) && item.Filter?
    ensures Means(locale, items + [item], Fold(HandlerOf(locale), TokensOfItem(item), st))
  {
    ItemsNext(locale, items, item);
    FoldOne(locale, st, TokensOfItem(item)[0]);
    FilterIsAdded(locale, st, item.gap, item.key, item.value);
    FilterMeans(locale, items, FinishOrGroup(st), item);
    assert TextsOf(items) + [] == TextsOf(items);
    assert Groups(items) + [] == Groups(items);
  }

  lemma {:induction false} EmptyMeansNext(locale: Locale, items: seq<Item>, st: State, item: Item)
    requires Means(locale, items, st) && item.Empty?
    ensures Means(locale, items + [item], Fold(HandlerOf(locale), TokensOfItem(item), st))
  {
    ItemsNext(locale, items, item);
    FoldOne(locale, st, TokensOfItem(item)[0]);
    FiltersStay(locale, items, item, st.filters);
    assert (items + [item])[|items|] == item;
    assert TextsOf(items) + [] == TextsOf(items);
    assert Groups(items) + [] == Groups(items);
  }

  lemma {:induction false} NothingMeans(locale: Locale)
    ensures Means(locale, [], EmptyState())
  {
  }

  lemma {:induction false} ItemsMean(locale: Locale, items: seq<Item>)
    requires NoColonInOr(locale) && forall k :: 0 <= k < |items| ==> GoodItem(locale, items[k])
    ensures Means(locale, items, Fold(HandlerOf(locale), TokensOf(items), EmptyState()))
    decreases |items|
  {
    if items == [] {
      NothingMeans(locale);
    } else {
      var n := |items| - 1;
      var init, item := items[..n], items[n];
      assert items == init + [item];
      ItemsMean(locale, init);
      ItemsNext(locale, init, item);
      FoldAppends(HandlerOf(locale), TokensOf(init), TokensOfItem(item), EmptyState());
      if item.Filter? {
        FilterMeansNext(locale, init, Fold(HandlerOf(locale), TokensOf(init), EmptyState()), item);
      } else if item.Empty? {
        EmptyMeansNext(locale, init, Fold(HandlerOf(locale), TokensOf(init), EmptyState()), item);
      } else {
        WordsMeanNext(locale, init, Fold(HandlerOf(locale), TokensOf(init), EmptyState()), item);
      }
    }
  }

  function NotIn(alternatives: seq<string>): string -> bool {
    (term: string) => term !in alternatives
  }

  lemma {:induction false} OutsideLast(terms: seq<string>, alternatives: seq<string>, last: string)
    ensures Outside(terms + [last], alternatives) ==
      Outside(terms, alternatives) + if last in alternatives then [] else [last]
    decreases |terms|
  {
    if terms == [] {
      assert [] + [last] == [last] && [last][1..] == [];
    } else {
      assert (terms + [last])[1..] == terms[1..] + [last];
      OutsideLast(terms[1..], alternatives, last);
    }
  }

  /** What is kept of a list are the terms that are not among the alternatives, in order. */
  lemma {:induction false} OutsideIsFilter(terms: seq<string>, alternatives: seq<string>)
    ensures Outside(terms, alternatives) == Permutations.Filter(NotIn(alternatives), terms)
    decreases |terms|
  {
    if terms != [] {
      var n := |terms| - 1;
      OutsideIsFilter(terms[..n], alternatives);
      OutsideLast(terms[..n], alternatives, terms[n]);
      assert terms[..n] + [terms[n]] == terms;
    }
  }

  /** The alternatives are the values of all groups. */
  lemma {:induction false} FlattenHas(groups: seq<seq<string>>, x: string)
    ensures x in Flatten(groups) <==> exists k :: 0 <= k < |groups| && x in groups[k]
  {
    if groups != [] {
      FlattenHas(groups[1..], x);
      if k :| 0 <= k < |groups| && x in groups[k] {
        if k > 0 { assert groups[1..][k - 1] == groups[k]; }
      }
      if k :| 0 <= k < |groups[1..]| && x in groups[1..][k] {
        assert groups[k + 1] == groups[1..][k];
      }
    }
  }

  /**
   Printing any list of texts, filters and OR groups and parsing it gives back what they
   mean: the groups; the texts in the list of their sign and quotes, the required ones and
   the phrases without those that are alternatives; each filter with the last value that
   sets it; and a note for every filter that is empty, has a bad date or was set before and
   for every word that looks like a filter and is none.
   */
  lemma {:induction false} PrintedItemsParseBack(locale: Locale, items: seq<Item>)
    requires NoColonInOr(locale) && Spaced(TokensOf(items))
    requires forall k :: 0 <= k < |items| ==> GoodItem(locale, items[k])
    ensures var q, texts := Parse(locale, PrintTokens(TokensOf(items))), TextsOf(items);
      && q.anyOf == Groups(items) && q.optional == Values(texts, OptionalList)
      && q.excluded == Values(texts, ExcludedList)
      && q.required == Permutations.Filter(NotIn(Flatten(Groups(items))), Values(texts, RequiredList))
      && q.phrases == Permutations.Filter(NotIn(Flatten(Groups(items))), Values(texts, PhraseList))
      && q.positive == Positives(texts)
      && FiltersAre(locale, items, q.filters) && q.diagnostics == Notes(locale, items)
  {
    var tokens, texts := TokensOf(items), TextsOf(items);
    PrintedTokensAreRead(HandlerOf(locale), tokens, "", EmptyState());
    assert PrintTokens(tokens) + "" == PrintTokens(tokens);
    NothingReads(HandlerOf(locale), Fold(HandlerOf(locale), tokens, EmptyState()));
    ItemsMean(locale, items);
    OutsideIsFilter(Values(texts, RequiredList), Flatten(Groups(items)));
    OutsideIsFilter(Values(texts, PhraseList), Flatten(Groups(items)));
  }

  lemma {:induction false} UnclosedIsNoted(locale: Locale, st: State, text: Token)
    requires text.value != "" && text.quoted
    ensures HandlerOf(locale)(st, text.modifier, text.value, true, false) ==
      HandleToken(locale, Diagnose(st, UnclosedQuote, text.value), text)
  {
  }

  /**
   A last quoted text without its closing quote is taken as it is, and noted. The query is
   otherwise that of the closed text.
   */
  lemma {:induction false} UnclosedTextParses(locale: Locale, items: seq<Item>, text: Token)
    requires NoColonInOr(locale) && Spaced(TokensOf(items)) && Closes(TokensOf(items), PrintUnclosed(text))
    requires forall k :: 0 <= k < |items| ==> GoodItem(locale, items[k])
    requires text.quoted && text.value != "" && AllSpace(text.gap)
    ensures var q, all := Parse(locale, PrintTokens(TokensOf(items)) + PrintUnclosed(text)), items + [Text(text)];
      && q.anyOf == Groups(all) && q.optional == Values(TextsOf(all), OptionalList)
      && q.excluded == Values(TextsOf(all), ExcludedList)
      && q.required == Permutations.Filter(NotIn(Flatten(Groups(all))), Values(TextsOf(all), RequiredList))
      && q.phrases == Permutations.Filter(NotIn(Flatten(Groups(all))), Values(TextsOf(all), PhraseList))
      && q.positive == Positives(TextsOf(all))
      && FiltersAre(locale, all, q.filters)
      && q.diagnostics == Notes(locale, items) + [Diagnostic(UnclosedQuote, text.value)]
  {
    var handle, all, texts := HandlerOf(locale), items + [Text(text)], TextsOf(items);
    var st := Fold(handle, TokensOf(items), EmptyState());
    var noted := Diagnose(st, UnclosedQuote, text.value);
    var last := HandleToken(locale, noted, text);
    PrintedTokensAreRead(handle, TokensOf(items), PrintUnclosed(text), EmptyState());
    UnclosedIsNext(text);
    StepReads(handle, PrintUnclosed(text), Found(text.modifier, text.value, true, false, ""), st);
    UnclosedIsNoted(locale, st, text);
    NothingReads(handle, last);
    ItemsMean(locale, items);
    ItemsNext(locale, items, Text(text));
    TextAdds(locale, noted, text);
    ListsGrow(noted, last, texts, [text]);
    OneNote(text);
    FiltersStay(locale, items, Text(text), st.filters);
    OutsideIsFilter(last.required, Flatten(Groups(all)));
    OutsideIsFilter(last.phrases, Flatten(Groups(all)));
    assert Groups(items) + [] == Groups(items);
  }
}
