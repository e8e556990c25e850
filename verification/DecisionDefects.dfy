/**
 What the parser says of a decision with one thing wrong: the code and the scope of each
 single defect, put into the encoding of any decision that it accepts.
 */
module DecisionDefects {
  import opened Wrappers
  import opened JsText
  import opened DecisionProtocol
  import opened DecisionFixpoint

  /** A decision that is accepted as itself when it is encoded. */
  ghost predicate Acceptable(norm: Norm, d: Decision) {
    IsUrlNorm(norm) && WellFormed(norm, d) && Reencodable(d)
  }

  // ---------------------------------------------------------------------------
  // One field replaced
  // ---------------------------------------------------------------------------

  /** The fields of the encoding with the value of field `k` replaced. */
  function FieldsWith(d: Decision, k: nat, value: Json): seq<(string, Json)>
    requires k < 7
  {
    EnvelopeFields(d)[k := (EnvelopeFields(d)[k].0, value)]
  }

  function ValueWith(d: Decision, k: nat, value: Json, j: nat): Json
    requires k < 7 && j < 7
  {
    if j == k then value else EnvelopeFields(d)[j].1
  }

  lemma {:induction false} FieldWithAt(d: Decision, k: nat, value: Json, j: nat)
    requires k < 7 && j < 7
    ensures FieldsWith(d, k, value)[j].0 == TopLevelFields[j]
    ensures FieldOf(FieldsWith(d, k, value), TopLevelFields[j]) == Some(ValueWith(d, k, value, j))
  {
    var input := FieldsWith(d, k, value);
    TopLevelFieldsDiffer();
    assert forall i :: 0 <= i < 7 ==> input[i].0 == TopLevelFields[i];
    FieldAt(input, j);
  }

  lemma {:induction false} FieldsWithRead(d: Decision, k: nat, value: Json)
    requires k < 7
    ensures var input := FieldsWith(d, k, value);
      && !RejectsFields(input, TopLevelFields)
      && FieldOf(input, "decision") == Some(ValueWith(d, k, value, 0))
      && FieldOf(input, "searchActions") == Some(ValueWith(d, k, value, 1))
      && FieldOf(input, "fetchActions") == Some(ValueWith(d, k, value, 2))
      && FieldOf(input, "uncertainties") == Some(ValueWith(d, k, value, 3))
      && FieldOf(input, "finalAnswer") == Some(ValueWith(d, k, value, 4))
      && FieldOf(input, "evidenceUrls") == Some(ValueWith(d, k, value, 5))
      && FieldOf(input, "findings") == Some(ValueWith(d, k, value, 6))
  {
    var input := FieldsWith(d, k, value);
    forall j | 0 <= j < 7 ensures input[j].0 in TopLevelFields {
      FieldWithAt(d, k, value, j);
    }
    AllExpected(input, TopLevelFields);
    FieldWithAt(d, k, value, 0);
    FieldWithAt(d, k, value, 1);
    FieldWithAt(d, k, value, 2);
    FieldWithAt(d, k, value, 3);
    FieldWithAt(d, k, value, 4);
    FieldWithAt(d, k, value, 5);
    FieldWithAt(d, k, value, 6);
  }

  /** The encoding with the value of field `k` replaced. */
  function With(d: Decision, k: nat, value: Json): Json
    requires k < 7
  {
    Obj(FieldsWith(d, k, value))
  }

  lemma {:induction false} WithParses(norm: Norm, d: Decision, k: nat, value: Json)
    requires k < 7
    ensures Parse(norm, With(d, k, value)) ==
      ParseFields(norm, ValueWith(d, k, value, 0), ValueWith(d, k, value, 1), ValueWith(d, k, value, 2),
                  ValueWith(d, k, value, 3), ValueWith(d, k, value, 4), ValueWith(d, k, value, 5),
                  ValueWith(d, k, value, 6))
  {
    FieldsWithRead(d, k, value);
  }

  // ---------------------------------------------------------------------------
  // The envelope
  // ---------------------------------------------------------------------------

  /** Only an object can be a decision. */
  lemma {:induction false} EnvelopeDefect(norm: Norm, value: Json)
    requires !value.Obj?
    ensures Parse(norm, value) == Err(Error(JsonScope, InvalidEnvelope))
  {
  }

  lemma {:induction false} MissingFrom(fields: seq<(string, Json)>, name: string)
    requires forall j :: 0 <= j < |fields| ==> fields[j].0 != name
    ensures FieldOf(fields, name).None?
  {
    if fields != [] {
      MissingFrom(fields[1..], name);
    }
  }

  /** An encoding that lacks one of the seven fields. */
  lemma {:induction false} MissingFieldDefect(norm: Norm, d: Decision, k: nat)
    requires k < 7
    ensures Parse(norm, Obj(EnvelopeFields(d)[..k] + EnvelopeFields(d)[k + 1..])) == Err(Error(DecisionScope, MissingField))
  {
    var all := EnvelopeFields(d);
    var fields := all[..k] + all[k + 1..];
    TopLevelFieldsDiffer();
    assert forall i :: 0 <= i < 7 ==> all[i].0 == TopLevelFields[i];
    assert forall i :: 0 <= i < 6 ==> fields[i] == all[if i < k then i else i + 1];
    AllExpected(fields, TopLevelFields);
    MissingFrom(fields, TopLevelFields[k]);
  }

  /** A decision of no known kind. */
  lemma {:induction false} KindDefect(norm: Norm, d: Decision, value: Json)
    requires value !in {Str("search"), Str("fetch"), Str("review"), Str("finish")}
    ensures Parse(norm, With(d, 0, value)) == Err(Error(DecisionScope, UnknownDecision))
  {
    WithParses(norm, d, 0, value);
  }

  // ---------------------------------------------------------------------------
  // The actions
  // ---------------------------------------------------------------------------

  lemma {:induction false} KindIsKnown(d: Decision)
    ensures KindOf(Str(KindName(d.kind))) == Some(d.kind)
  {
    KindReads(d.kind);
  }

  /** The actions are no list, or there are more than eight of them. */
  lemma {:induction false} ActionListDefect(norm: Norm, d: Decision, value: Json)
    requires WellFormed(norm, d)
    ensures !value.Arr? ==>
      && Parse(norm, With(d, 1, value)) == Err(Error(ActionScope, InvalidActions))
      && Parse(norm, With(d, 2, value)) == Err(Error(ActionScope, InvalidActions))
    ensures value.Arr? && |value.items| > 8 ==>
      && Parse(norm, With(d, 1, value)) == Err(Error(ActionScope, ActionLimitExceeded))
      && Parse(norm, With(d, 2, value)) == Err(Error(ActionScope, ActionLimitExceeded))
  {
    WithParses(norm, d, 1, value);
    WithParses(norm, d, 2, value);
    KindIsKnown(d);
  }

  lemma {:induction false} SearchHead(items: seq<Json>, before: seq<SearchAction>, action: SearchAction)
    requires items != [] && ReadSearch(items[0]) == Ok(action) && !HasQuery(before, action.query)
    ensures ParseSearchActions(items, before) == ParseSearchActions(items[1..], before + [action])
  {
  }

  lemma {:induction false} SearchIsNew(actions: seq<SearchAction>, i: nat)
    requires SearchesOk(actions) && i < |actions|
    ensures Clean(actions[i].query, 500) && !HasQuery(actions[..i], actions[i].query)
  {
  }

  lemma {:induction false} SearchPrefixReads(actions: seq<SearchAction>, k: nat, items: seq<Json>, i: nat)
    requires SearchesOk(actions) && i <= k < |actions| && |items| == |actions|
    requires forall j :: 0 <= j < k ==> items[j] == EncodeSearch(actions[j])
    ensures ParseSearchActions(items[i..], actions[..i]) == ParseSearchActions(items[k..], actions[..k])
    decreases k - i
  {
    if i < k {
      DecisionFixpoint.Step(items, i);
      DecisionFixpoint.Step(actions, i);
      SearchIsNew(actions, i);
      SearchReads(actions[i]);
      SearchHead(items[i..], actions[..i], actions[i]);
      SearchPrefixReads(actions, k, items, i + 1);
    }
  }

  /** The encoding with search `k` replaced by `item`. */
  function WithSearch(d: Decision, k: nat, item: Json): Json
    requires k < |d.searchActions|
  {
    With(d, 1, Arr(EncodeSearches(d.searchActions)[k := item]))
  }

  lemma {:induction false} SearchIsBlamed(norm: Norm, d: Decision, k: nat, item: Json)
    requires WellFormed(norm, d) && k < |d.searchActions|
    ensures ReadSearch(item).Err? ==> Parse(norm, WithSearch(d, k, item)) == Err(ReadSearch(item).error)
    ensures ReadSearch(item).Ok? && HasQuery(d.searchActions[..k], ReadSearch(item).value.query) ==>
      Parse(norm, WithSearch(d, k, item)) == Err(Error(ActionScope, DuplicateAction))
  {
    var items := EncodeSearches(d.searchActions)[k := item];
    WithParses(norm, d, 1, Arr(items));
    KindIsKnown(d);
    SearchPrefixReads(d.searchActions, k, items, 0);
    assert items[0..] == items && d.searchActions[..0] == [];
    DecisionFixpoint.Step(items, k);
  }

  lemma {:induction false} TwoFieldsRead(first: string, second: string, a: Json, b: Json, allowed: seq<string>)
    requires first != second && first in allowed && second in allowed
    ensures var fields := [(first, a), (second, b)];
      && !RejectsFields(fields, allowed) && FieldOf(fields, first) == Some(a) && FieldOf(fields, second) == Some(b)
  {
    var fields := [(first, a), (second, b)];
    AllExpected(fields, allowed);
    FieldAt(fields, 0);
    FieldAt(fields, 1);
  }

  /** A text that is given, not blank and not too long. */
  predicate GoodText(value: Json, limit: nat) {
    value.Str? && !Blank(value.s) && |value.s| <= limit
  }

  lemma {:induction false} SearchFieldsDecide(fields: seq<(string, Json)>)
    requires !RejectsFields(fields, SearchFields)
    ensures ReadSearch(Obj(fields)) == CheckSearch(FieldOf(fields, "query"), FieldOf(fields, "retry"))
  {
  }

  lemma {:induction false} SearchRecordReads(query: Json, retry: Json)
    ensures ReadSearch(Obj([("query", query), ("retry", retry)])) == CheckSearch(Some(query), Some(retry))
  {
    DifferentTexts("query", "retry", 0);
    TwoFieldsRead("query", "retry", query, retry, SearchFields);
    SearchFieldsDecide([("query", query), ("retry", retry)]);
  }

  lemma {:induction false} SearchCases(query: Json, retry: Json)
    ensures var r := CheckSearch(Some(query), Some(retry));
      && (!GoodText(query, 500) ==> r == Err(Error(ActionScope, InvalidSearchAction)))
      && (GoodText(query, 500) && !retry.Bool? ==> r == Err(Error(ActionScope, InvalidRetry)))
      && (GoodText(query, 500) && retry.Bool? ==> r == Ok(SearchAction(Trim(query.s), retry.b)))
  {
  }

  lemma {:induction false} EarlierQuery(actions: seq<SearchAction>, k: nat, query: string)
    requires k <= |actions|
    ensures HasQuery(actions[..k], query) <==> exists j :: 0 <= j < k && actions[j].query == query
  {
    if j :| 0 <= j < k && actions[j].query == query {
      assert actions[..k][j].query == query;
    }
  }

  /** A search whose query is no text within 500 characters, whose mark is no truth value, or that is there already. */
  lemma {:induction false} SearchDefect(norm: Norm, d: Decision, k: nat, query: Json, retry: Json)
    requires WellFormed(norm, d) && k < |d.searchActions|
    ensures var r := Parse(norm, WithSearch(d, k, Obj([("query", query), ("retry", retry)])));
      && (!GoodText(query, 500) ==> r == Err(Error(ActionScope, InvalidSearchAction)))
      && (GoodText(query, 500) && !retry.Bool? ==> r == Err(Error(ActionScope, InvalidRetry)))
      && (GoodText(query, 500) && retry.Bool? && (exists j :: 0 <= j < k && d.searchActions[j].query == Trim(query.s)) ==>
            r == Err(Error(ActionScope, DuplicateAction)))
  {
    var item := Obj([("query", query), ("retry", retry)]);
    SearchRecordReads(query, retry);
    SearchCases(query, retry);
    SearchIsBlamed(norm, d, k, item);
    if ReadSearch(item).Ok? {
      EarlierQuery(d.searchActions, k, ReadSearch(item).value.query);
    }
  }

  lemma {:induction false} UnmarkedSearch(query: string)
    requires GoodText(Str(query), 500)
    ensures ReadSearch(Obj([("query", Str(query))])) == Err(Error(ActionScope, MissingField))
  {
    var fields := [("query", Str(query))];
    AllExpected(fields, SearchFields);
    FieldAt(fields, 0);
    DifferentTexts("query", "retry", 0);
    MissingFrom(fields, "retry");
    SearchFieldsDecide(fields);
  }

  /** A search that is no record. */
  lemma {:induction false} SearchShapeDefect(norm: Norm, d: Decision, k: nat, item: Json)
    requires WellFormed(norm, d) && k < |d.searchActions| && !item.Obj? && !item.Arr?
    ensures Parse(norm, WithSearch(d, k, item)) == Err(Error(ActionScope, InvalidSearchAction))
  {
    SearchIsBlamed(norm, d, k, item);
  }

  /** A search without a mark. */
  lemma {:induction false} SearchMarkDefect(norm: Norm, d: Decision, k: nat, query: string)
    requires WellFormed(norm, d) && k < |d.searchActions| && GoodText(Str(query), 500)
    ensures Parse(norm, WithSearch(d, k, Obj([("query", Str(query))]))) == Err(Error(ActionScope, MissingField))
  {
    UnmarkedSearch(query);
    SearchIsBlamed(norm, d, k, Obj([("query", Str(query))]));
  }

  lemma {:induction false} FetchPrefixReads(norm: Norm, actions: seq<FetchAction>, k: nat, items: seq<Json>, i: nat)
    requires IsUrlNorm(norm) && FetchesOk(norm, actions) && FetchesFit(actions) && i <= k < |actions| && |items| == |actions|
    requires forall j :: 0 <= j < k ==> items[j] == EncodeFetch(actions[j])
    ensures ParseFetchActions(norm, items[i..], actions[..i]) == ParseFetchActions(norm, items[k..], actions[..k])
    decreases k - i
  {
    if i < k {
      DecisionFixpoint.Step(items, i);
      DecisionFixpoint.Step(actions, i);
      FetchIsNew(norm, actions, i);
      NormalIsNotBlank(norm, actions[i].url);
      FetchReads(norm, actions[i]);
      FetchHead(norm, items[i..], actions[..i], actions[i]);
      FetchPrefixReads(norm, actions, k, items, i + 1);
    }
  }

  /** The encoding with fetch `k` replaced by `item`. */
  function WithFetch(d: Decision, k: nat, item: Json): Json
    requires k < |d.fetchActions|
  {
    With(d, 2, Arr(EncodeFetches(d.fetchActions)[k := item]))
  }

  lemma {:induction false} FetchIsBlamed(norm: Norm, d: Decision, k: nat, item: Json)
    requires Acceptable(norm, d) && k < |d.fetchActions|
    ensures ReadFetch(norm, item).Err? ==> Parse(norm, WithFetch(d, k, item)) == Err(ReadFetch(norm, item).error)
    ensures ReadFetch(norm, item).Ok? && HasUrl(d.fetchActions[..k], ReadFetch(norm, item).value.url) ==>
      Parse(norm, WithFetch(d, k, item)) == Err(Error(ActionScope, DuplicateAction))
  {
    var items := EncodeFetches(d.fetchActions)[k := item];
    WithParses(norm, d, 2, Arr(items));
    KindIsKnown(d);
    SearchListReads(d.searchActions);
    FetchPrefixReads(norm, d.fetchActions, k, items, 0);
    assert items[0..] == items && d.fetchActions[..0] == [];
    DecisionFixpoint.Step(items, k);
  }

  lemma {:induction false} FetchPairReads(norm: Norm, url: Json, retry: Json)
    ensures ReadFetch(norm, Obj([("url", url), ("retry", retry)])) == CheckFetch(norm, Some(url), Some(retry))
  {
    DifferentTexts("url", "retry", 0);
    TwoFieldsRead("url", "retry", url, retry, FetchFields);
    FetchRecordReads(norm, [("url", url), ("retry", retry)]);
  }

  lemma {:induction false} FetchCases(norm: Norm, url: Json, retry: Json)
    ensures var r := CheckFetch(norm, Some(url), Some(retry));
      && (!GoodText(url, 2048) ==> r == Err(Error(ActionScope, InvalidFetchAction)))
      && (GoodText(url, 2048) && !retry.Bool? ==> r == Err(Error(ActionScope, InvalidRetry)))
      && (GoodText(url, 2048) && retry.Bool? && norm(url.s).None? ==> r == Err(Error(ActionScope, InvalidFetchAction)))
      && (GoodText(url, 2048) && retry.Bool? && norm(url.s).Some? ==> r == Ok(FetchAction(norm(url.s).value, retry.b)))
  {
  }

  lemma {:induction false} EarlierUrl(actions: seq<FetchAction>, k: nat, url: string)
    requires k <= |actions|
    ensures HasUrl(actions[..k], url) <==> exists j :: 0 <= j < k && actions[j].url == url
  {
    if j :| 0 <= j < k && actions[j].url == url {
      assert actions[..k][j].url == url;
    }
  }

  /**
   A fetch whose URL is no text within 2048 characters or not a URL, whose mark is no truth
   value, or that is there already.
   */
  lemma {:induction false} FetchDefect(norm: Norm, d: Decision, k: nat, url: Json, retry: Json)
    requires Acceptable(norm, d) && k < |d.fetchActions|
    ensures var r := Parse(norm, WithFetch(d, k, Obj([("url", url), ("retry", retry)])));
      && (!GoodText(url, 2048) ==> r == Err(Error(ActionScope, InvalidFetchAction)))
      && (GoodText(url, 2048) && !retry.Bool? ==> r == Err(Error(ActionScope, InvalidRetry)))
      && (GoodText(url, 2048) && retry.Bool? && norm(url.s).None? ==> r == Err(Error(ActionScope, InvalidFetchAction)))
      && (GoodText(url, 2048) && retry.Bool? && (exists j :: 0 <= j < k && norm(url.s) == Some(d.fetchActions[j].url)) ==>
            r == Err(Error(ActionScope, DuplicateAction)))
  {
    var item := Obj([("url", url), ("retry", retry)]);
    FetchPairReads(norm, url, retry);
    FetchCases(norm, url, retry);
    FetchIsBlamed(norm, d, k, item);
    if ReadFetch(norm, item).Ok? {
      EarlierUrl(d.fetchActions, k, ReadFetch(norm, item).value.url);
    }
  }

  lemma {:induction false} UnmarkedFetch(norm: Norm, url: string)
    requires GoodText(Str(url), 2048)
    ensures ReadFetch(norm, Obj([("url", Str(url))])) == Err(Error(ActionScope, MissingField))
  {
    var fields := [("url", Str(url))];
    AllExpected(fields, FetchFields);
    FieldAt(fields, 0);
    DifferentTexts("url", "retry", 0);
    MissingFrom(fields, "retry");
    FetchRecordReads(norm, fields);
  }

  /** A fetch that is no record. */
  lemma {:induction false} FetchShapeDefect(norm: Norm, d: Decision, k: nat, item: Json)
    requires Acceptable(norm, d) && k < |d.fetchActions| && !item.Obj? && !item.Arr?
    ensures Parse(norm, WithFetch(d, k, item)) == Err(Error(ActionScope, InvalidFetchAction))
  {
    FetchIsBlamed(norm, d, k, item);
  }

  /** A fetch without a mark. */
  lemma {:induction false} FetchMarkDefect(norm: Norm, d: Decision, k: nat, url: string)
    requires Acceptable(norm, d) && k < |d.fetchActions| && GoodText(Str(url), 2048)
    ensures Parse(norm, WithFetch(d, k, Obj([("url", Str(url))]))) == Err(Error(ActionScope, MissingField))
  {
    UnmarkedFetch(norm, url);
    FetchIsBlamed(norm, d, k, Obj([("url", Str(url))]));
  }

  // ---------------------------------------------------------------------------
  // The rest
  // ---------------------------------------------------------------------------

  /** The actions of an acceptable decision read back, whichever field after them is replaced. */
  lemma {:induction false} RestParses(norm: Norm, d: Decision, k: nat, value: Json)
    requires Acceptable(norm, d) && 3 <= k < 7
    ensures Parse(norm, With(d, k, value)) ==
      ParseRest(norm, d.kind, d.searchActions, d.fetchActions, ValueWith(d, k, value, 3), ValueWith(d, k, value, 4),
                ValueWith(d, k, value, 5), ValueWith(d, k, value, 6))
  {
    WithParses(norm, d, k, value);
    SearchListReads(d.searchActions);
    FetchListReads(norm, d.fetchActions);
    FieldsParse(norm, d, Arr(EncodeSearches(d.searchActions)), Arr(EncodeFetches(d.fetchActions)),
                ValueWith(d, k, value, 3), ValueWith(d, k, value, 4), ValueWith(d, k, value, 5), ValueWith(d, k, value, 6));
  }

  /** The actions do not go with the kind: `d` is acceptable but for its kind. */
  lemma {:induction false} ActionsDefect(norm: Norm, d: Decision, kind: DecisionKind)
    requires Acceptable(norm, d)
    requires match kind
      case Search => d.searchActions == [] || d.fetchActions != []
      case Fetch => d.fetchActions == [] || d.searchActions != []
      case _ => d.searchActions != [] || d.fetchActions != []
    ensures Parse(norm, With(d, 0, Str(KindName(kind)))) == Err(Error(DecisionScope, InvalidActions))
  {
    WithParses(norm, d, 0, Str(KindName(kind)));
    SearchListReads(d.searchActions);
    FetchListReads(norm, d.fetchActions);
    FieldsParse(norm, d.(kind := kind), Arr(EncodeSearches(d.searchActions)), Arr(EncodeFetches(d.fetchActions)),
                Arr(EncodeStrings(d.uncertainties)), EncodeAnswer(d.finalAnswer),
                Arr(EncodeStrings(d.evidenceUrls)), Arr(EncodeFindings(d.findings)));
  }

  /** The uncertainties are no list of at most 16 texts of at most 500 characters each. */
  lemma {:induction false} UncertaintiesDefect(norm: Norm, d: Decision, value: Json)
    requires Acceptable(norm, d)
    requires value.Arr? ==>
      (|value.items| > 16 || exists k :: 0 <= k < |value.items| && (value.items[k].Str? ==> |value.items[k].s| > 500))
    ensures Parse(norm, With(d, 3, value)) == Err(Error(ActionScope, InvalidUncertainties))
  {
    RestParses(norm, d, 3, value);
  }

  /** A finish needs an answer of at most 12000 characters that is not blank; any other decision has none. */
  lemma {:induction false} AnswerDefect(norm: Norm, d: Decision, value: Json)
    requires Acceptable(norm, d)
    ensures var r := Parse(norm, With(d, 4, value));
      && (d.kind == Finish && (value.Str? ==> Blank(value.s)) ==> r == Err(Error(DecisionScope, MissingFinalAnswer)))
      && (d.kind == Finish && value.Str? && !Blank(value.s) && |value.s| > 12000 ==>
            r == Err(Error(DecisionScope, InvalidFinalAnswer)))
      && (d.kind != Finish && value != Null ==> r == Err(Error(DecisionScope, InvalidFinalAnswer)))
  {
    RestParses(norm, d, 4, value);
    UncertaintiesRead(d.uncertainties);
  }

  lemma {:induction false} CitationsParse(norm: Norm, d: Decision, k: nat, value: Json)
    requires Acceptable(norm, d) && 5 <= k < 7
    ensures Parse(norm, With(d, k, value)) ==
      ParseCitations(norm, d.kind, d.searchActions, d.fetchActions, d.uncertainties, d.finalAnswer,
                     ValueWith(d, k, value, 5), ValueWith(d, k, value, 6))
  {
    var uncertainties := Arr(EncodeStrings(d.uncertainties));
    RestParses(norm, d, k, value);
    UncertaintiesRead(d.uncertainties);
    AnswerReads(d.kind, d.finalAnswer, |d.searchActions|, |d.fetchActions|, uncertainties);
  }

  /** The cited URLs are no list, or more than 100; a decision other than a finish cites one. */
  lemma {:induction false} EvidenceListDefect(norm: Norm, d: Decision, value: Json)
    requires Acceptable(norm, d)
    ensures var r := Parse(norm, With(d, 5, value));
      && (!value.Arr? || |value.items| > 100 ==> r == Err(Error(ActionScope, InvalidEvidenceUrls)))
      && (d.kind != Finish && value.Arr? && |value.items| == 1 && !NoUrl(norm, value.items[0]) ==>
            r == Err(Error(DecisionScope, InvalidEvidenceUrls)))
  {
    CitationsParse(norm, d, 5, value);
    if value.Arr? && |value.items| == 1 && !NoUrl(norm, value.items[0]) {
      assert value.items[1..] == [];
      assert ParseUrls(norm, value.items, []) == ParseUrls(norm, value.items[1..], [] + [norm(value.items[0].s).value]);
    }
  }

  lemma {:induction false} UrlsPrefixRead(norm: Norm, urls: seq<string>, k: nat, items: seq<Json>, i: nat)
    requires UrlsOk(norm, urls) && Fit(urls) && i <= k < |urls| && |items| == |urls|
    requires forall j :: 0 <= j < k ==> items[j] == Str(urls[j])
    ensures ParseUrls(norm, items[i..], urls[..i]) == ParseUrls(norm, items[k..], urls[..k])
    decreases k - i
  {
    if i < k {
      DecisionFixpoint.Step(items, i);
      DecisionFixpoint.Step(urls, i);
      assert Normal(norm, urls[i]) && urls[i] !in urls[..i];
      UrlsPrefixRead(norm, urls, k, items, i + 1);
    }
  }

  /** No text, a text that is too long, or no URL. */
  predicate NoUrl(norm: Norm, value: Json) {
    value.Str? && |value.s| <= 2048 ==> norm(value.s).None?
  }

  lemma {:induction false} UrlListDefect(norm: Norm, urls: seq<string>, k: nat, value: Json)
    requires UrlsOk(norm, urls) && Fit(urls) && k < |urls| && NoUrl(norm, value)
    ensures ParseUrls(norm, EncodeStrings(urls)[k := value], []) == Err(Error(ActionScope, InvalidEvidenceUrl))
  {
    var items := EncodeStrings(urls)[k := value];
    UrlsPrefixRead(norm, urls, k, items, 0);
    assert items[0..] == items && urls[..0] == [];
    DecisionFixpoint.Step(items, k);
  }

  /** One of the cited URLs is none. */
  lemma {:induction false} EvidenceUrlDefect(norm: Norm, d: Decision, k: nat, value: Json)
    requires Acceptable(norm, d) && k < |d.evidenceUrls| && NoUrl(norm, value)
    ensures Parse(norm, With(d, 5, Arr(EncodeStrings(d.evidenceUrls)[k := value]))) ==
      Err(Error(ActionScope, InvalidEvidenceUrl))
  {
    CitationsParse(norm, d, 5, Arr(EncodeStrings(d.evidenceUrls)[k := value]));
    CitationsAreNormal(norm, d.findings);
    UrlListDefect(norm, d.evidenceUrls, k, value);
  }

  // ---------------------------------------------------------------------------
  // The findings
  // ---------------------------------------------------------------------------

  lemma {:induction false} FindingsParse(norm: Norm, d: Decision, value: Json)
    requires Acceptable(norm, d) && value.Arr? && |value.items| <= 100 && ParseFindings(norm, value.items, []).Err?
    ensures Parse(norm, With(d, 6, value)) == Err(ParseFindings(norm, value.items, []).error)
  {
    CitationsParse(norm, d, 6, value);
    CitationsAreNormal(norm, d.findings);
    UrlListReads(norm, d.evidenceUrls);
  }

  /** The findings are no list, or more than 100; a decision other than a finish has one. */
  lemma {:induction false} FindingListDefect(norm: Norm, d: Decision, value: Json, f: Finding)
    requires Acceptable(norm, d)
    ensures !value.Arr? || |value.items| > 100 ==>
      Parse(norm, With(d, 6, value)) == Err(Error(ActionScope, InvalidFindings))
    ensures d.kind != Finish && FindingOk(norm, f) && Fit(f.evidenceUrls) ==>
      Parse(norm, With(d, 6, Arr([EncodeFinding(f)]))) == Err(Error(DecisionScope, InvalidFindings))
  {
    CitationsAreNormal(norm, d.findings);
    UrlListReads(norm, d.evidenceUrls);
    CitationsParse(norm, d, 6, value);
    if d.kind != Finish && FindingOk(norm, f) && Fit(f.evidenceUrls) {
      CitationsParse(norm, d, 6, Arr([EncodeFinding(f)]));
      assert EncodeFindings([f]) == [EncodeFinding(f)];
      FindingListReads(norm, [f]);
    }
  }

  lemma {:induction false} FindingPrefixReads(norm: Norm, findings: seq<Finding>, k: nat, items: seq<Json>, i: nat)
    requires FindingsOk(norm, findings) && FindingsFit(findings) && i <= k < |findings| && |items| == |findings|
    requires forall j :: 0 <= j < k ==> items[j] == EncodeFinding(findings[j])
    ensures ParseFindings(norm, items[i..], findings[..i]) == ParseFindings(norm, items[k..], findings[..k])
    decreases k - i
  {
    if i < k {
      DecisionFixpoint.Step(items, i);
      DecisionFixpoint.Step(findings, i);
      FindingIsNew(norm, findings, i);
      FindingReads(norm, findings[i]);
      FindingHead(norm, items[i..], findings[..i], findings[i]);
      FindingPrefixReads(norm, findings, k, items, i + 1);
    }
  }

  /** The encoding with finding `k` replaced by `item`. */
  function WithFinding(d: Decision, k: nat, item: Json): Json
    requires k < |d.findings|
  {
    With(d, 6, Arr(EncodeFindings(d.findings)[k := item]))
  }

  lemma {:induction false} FindingIsBlamed(norm: Norm, d: Decision, k: nat, item: Json)
    requires Acceptable(norm, d) && k < |d.findings|
    ensures ReadFinding(norm, item).Err? ==> Parse(norm, WithFinding(d, k, item)) == Err(ReadFinding(norm, item).error)
    ensures ReadFinding(norm, item).Ok? ==>
      var f := ReadFinding(norm, item).value;
      HasFinding(d.findings[..k], f.id, f.claim) ==>
        Parse(norm, WithFinding(d, k, item)) == Err(Error(DecisionScope, DuplicateFinding))
  {
    var items := EncodeFindings(d.findings)[k := item];
    CitationsAreNormal(norm, d.findings);
    FindingPrefixReads(norm, d.findings, k, items, 0);
    assert items[0..] == items && d.findings[..0] == [];
    DecisionFixpoint.Step(items, k);
    if ParseFindings(norm, items, []).Err? {
      FindingsParse(norm, d, Arr(items));
    }
  }

  /** A finding with these four values. */
  function FindingRecord(id: Json, claim: Json, disposition: Json, evidence: Json): Json {
    Obj([("id", id), ("claim", claim), ("disposition", disposition), ("evidenceUrls", evidence)])
  }

  lemma {:induction false} FindingRecordReads(norm: Norm, id: Json, claim: Json, disposition: Json, evidence: Json)
    ensures ReadFinding(norm, FindingRecord(id, claim, disposition, evidence)) ==
      CheckFinding(norm, Some(id), Some(claim), Some(disposition), Some(evidence))
  {
    var fields := FindingRecord(id, claim, disposition, evidence).fields;
    AllExpected(fields, FindingFields);
    FieldAt(fields, 0);
    FieldAt(fields, 1);
    FieldAt(fields, 2);
    FieldAt(fields, 3);
  }

  predicate KnownDisposition(value: Json) {
    value in {Str("confirmed"), Str("uncertain"), Str("excluded")}
  }

  lemma {:induction false} DispositionIsKnown(value: Json)
    ensures DispositionOf(Some(value)).Some? <==> KnownDisposition(value)
  {
  }

  lemma {:induction false} TextIsBad(value: Json, limit: nat)
    ensures BadText(Some(value), limit) <==> !GoodText(value, limit)
  {
  }

  lemma {:induction false} UnnamedFinding(norm: Norm, id: Option<Json>, claim: Option<Json>, disposition: Option<Json>,
                                          evidence: Option<Json>)
    requires BadText(id, 100) || BadText(claim, 2000)
    ensures CheckFinding(norm, id, claim, disposition, evidence) == Err(Error(ActionScope, InvalidFinding))
  {
  }

  lemma {:induction false} NamedFinding(norm: Norm, id: Option<Json>, claim: Option<Json>, disposition: Option<Json>,
                                        evidence: Option<Json>)
    requires !BadText(id, 100) && !BadText(claim, 2000)
    ensures var r := CheckFinding(norm, id, claim, disposition, evidence);
      && (DispositionOf(disposition).None? ==> r == Err(Error(ActionScope, InvalidFindingDisposition)))
      && (DispositionOf(disposition).Some? && (evidence.Some? && evidence.value.Arr? ==> |evidence.value.items| > 20) ==>
            r == Err(Error(ActionScope, InvalidFinding)))
      && (DispositionOf(disposition).Some? && evidence.Some? && evidence.value.Arr? && |evidence.value.items| <= 20 ==>
            var urls := ParseUrls(norm, evidence.value.items, []);
            urls.Err? ==> r == Err(urls.error))
  {
  }

  /**
   A finding whose id or claim is no text within 100 and 2000 characters, whose disposition
   is none of the three, or whose citations are no list of at most 20.
   */
  lemma {:induction false} FindingDefect(norm: Norm, d: Decision, k: nat, id: Json, claim: Json, disposition: Json,
                                         evidence: Json)
    requires Acceptable(norm, d) && k < |d.findings|
    ensures var r := Parse(norm, WithFinding(d, k, FindingRecord(id, claim, disposition, evidence)));
      var named := GoodText(id, 100) && GoodText(claim, 2000);
      && (!named ==> r == Err(Error(ActionScope, InvalidFinding)))
      && (named && !KnownDisposition(disposition) ==> r == Err(Error(ActionScope, InvalidFindingDisposition)))
      && (named && KnownDisposition(disposition) && (evidence.Arr? ==> |evidence.items| > 20) ==>
            r == Err(Error(ActionScope, InvalidFinding)))
  {
    FindingRecordReads(norm, id, claim, disposition, evidence);
    TextIsBad(id, 100);
    TextIsBad(claim, 2000);
    DispositionIsKnown(disposition);
    if GoodText(id, 100) && GoodText(claim, 2000) {
      NamedFinding(norm, Some(id), Some(claim), Some(disposition), Some(evidence));
    } else {
      UnnamedFinding(norm, Some(id), Some(claim), Some(disposition), Some(evidence));
    }
    FindingIsBlamed(norm, d, k, FindingRecord(id, claim, disposition, evidence));
  }

  /** A finding that is no record. */
  lemma {:induction false} FindingShapeDefect(norm: Norm, d: Decision, k: nat, item: Json)
    requires Acceptable(norm, d) && k < |d.findings| && !item.Obj?
    ensures Parse(norm, WithFinding(d, k, item)) == Err(Error(ActionScope, InvalidFinding))
  {
    FindingIsBlamed(norm, d, k, item);
  }

  /** A finding with the citation `j` replaced. */
  function WithCitation(f: Finding, j: nat, value: Json): Json
    requires j < |f.evidenceUrls|
  {
    FindingRecord(Str(f.id), Str(f.claim), Str(DispositionName(f.disposition)), Arr(EncodeStrings(f.evidenceUrls)[j := value]))
  }

  lemma {:induction false} CleanIsGood(text: string, limit: nat)
    requires Clean(text, limit)
    ensures !BadText(Some(Str(text)), limit)
  {
  }

  lemma {:induction false} CitationIsBlamed(norm: Norm, f: Finding, j: nat, value: Json)
    requires FindingOk(norm, f) && Fit(f.evidenceUrls) && j < |f.evidenceUrls| && NoUrl(norm, value)
    ensures ReadFinding(norm, WithCitation(f, j, value)) == Err(Error(ActionScope, InvalidEvidenceUrl))
  {
    var evidence, disposition := Arr(EncodeStrings(f.evidenceUrls)[j := value]), Str(DispositionName(f.disposition));
    FindingRecordReads(norm, Str(f.id), Str(f.claim), disposition, evidence);
    CleanIsGood(f.id, 100);
    CleanIsGood(f.claim, 2000);
    DispositionReads(f.disposition);
    NamedFinding(norm, Some(Str(f.id)), Some(Str(f.claim)), Some(disposition), Some(evidence));
    UrlListDefect(norm, f.evidenceUrls, j, value);
  }

  /** One of the citations of a finding is no URL. */
  lemma {:induction false} CitationDefect(norm: Norm, d: Decision, k: nat, j: nat, value: Json)
    requires Acceptable(norm, d) && k < |d.findings| && j < |d.findings[k].evidenceUrls| && NoUrl(norm, value)
    ensures Parse(norm, WithFinding(d, k, WithCitation(d.findings[k], j, value))) ==
      Err(Error(ActionScope, InvalidEvidenceUrl))
  {
    CitationsAreNormal(norm, d.findings);
    CitationIsBlamed(norm, d.findings[k], j, value);
    FindingIsBlamed(norm, d, k, WithCitation(d.findings[k], j, value));
  }

  /** A finding with the id or the claim of an earlier one. */
  lemma {:induction false} DuplicateFindingDefect(norm: Norm, d: Decision, k: nat, j: nat, f: Finding)
    requires Acceptable(norm, d) && j < k < |d.findings| && FindingOk(norm, f) && Fit(f.evidenceUrls)
    requires f.id == d.findings[j].id || f.claim == d.findings[j].claim
    ensures Parse(norm, WithFinding(d, k, EncodeFinding(f))) == Err(Error(DecisionScope, DuplicateFinding))
  {
    FindingReads(norm, f);
    assert d.findings[..k][j] == d.findings[j];
    FindingIsBlamed(norm, d, k, EncodeFinding(f));
  }
}
