/**
 Writing an accepted decision back into the seven-field envelope and parsing it again:
 exactly when that gives the same decision, and what the derived evidence list is.
 */
module DecisionFixpoint {
  import opened Wrappers
  import opened JsText
  import opened DecisionProtocol

  // ---------------------------------------------------------------------------
  // The encoder
  // ---------------------------------------------------------------------------

  function KindName(kind: DecisionKind): string {
    match kind
    case Search => "search"
    case Fetch => "fetch"
    case Review => "review"
    case Finish => "finish"
  }

  function DispositionName(disposition: Disposition): string {
    match disposition
    case Confirmed => "confirmed"
    case Uncertain => "uncertain"
    case Excluded => "excluded"
  }

  function EncodeStrings(texts: seq<string>): seq<Json> {
    seq(|texts|, k requires 0 <= k < |texts| => Str(texts[k]))
  }

  function EncodeSearch(action: SearchAction): Json {
    Obj([("query", Str(action.query)), ("retry", Bool(action.retry))])
  }

  function EncodeSearches(actions: seq<SearchAction>): seq<Json> {
    seq(|actions|, k requires 0 <= k < |actions| => EncodeSearch(actions[k]))
  }

  function EncodeFetch(action: FetchAction): Json {
    Obj([("url", Str(action.url)), ("retry", Bool(action.retry))])
  }

  function EncodeFetches(actions: seq<FetchAction>): seq<Json> {
    seq(|actions|, k requires 0 <= k < |actions| => EncodeFetch(actions[k]))
  }

  function EncodeFinding(f: Finding): Json {
    Obj([("id", Str(f.id)), ("claim", Str(f.claim)), ("disposition", Str(DispositionName(f.disposition))),
         ("evidenceUrls", Arr(EncodeStrings(f.evidenceUrls)))])
  }

  function EncodeFindings(findings: seq<Finding>): seq<Json> {
    seq(|findings|, k requires 0 <= k < |findings| => EncodeFinding(findings[k]))
  }

  function EncodeAnswer(answer: Option<string>): Json {
    if answer.Some? then Str(answer.value) else Null
  }

  function EnvelopeFields(d: Decision): seq<(string, Json)> {
    [("decision", Str(KindName(d.kind))),
     ("searchActions", Arr(EncodeSearches(d.searchActions))),
     ("fetchActions", Arr(EncodeFetches(d.fetchActions))),
     ("uncertainties", Arr(EncodeStrings(d.uncertainties))),
     ("finalAnswer", EncodeAnswer(d.finalAnswer)),
     ("evidenceUrls", Arr(EncodeStrings(d.evidenceUrls))),
     ("findings", Arr(EncodeFindings(d.findings)))]
  }

  function Encode(d: Decision): Json {
    Obj(EnvelopeFields(d))
  }

  // ---------------------------------------------------------------------------
  // Reading the fields back
  // ---------------------------------------------------------------------------

  lemma {:induction false} FieldAt(fields: seq<(string, Json)>, k: nat)
    requires k < |fields| && forall j :: 0 <= j < k ==> fields[j].0 != fields[k].0
    ensures FieldOf(fields, fields[k].0) == Some(fields[k].1)
  {
    if k > 0 {
      assert fields[0].0 != fields[k].0;
      FieldAt(fields[1..], k - 1);
    }
  }

  lemma {:induction false} AllExpected(fields: seq<(string, Json)>, allowed: seq<string>)
    requires forall k :: 0 <= k < |fields| ==> fields[k].0 in allowed
    ensures !RejectsFields(fields, allowed)
  {
    if fields != [] {
      AllExpected(fields[1..], allowed);
      assert FirstUnexpected(fields, allowed) == FirstUnexpected(fields[1..], allowed);
    }
  }

  lemma {:induction false} DifferentTexts(a: string, b: string, k: nat)
    requires |a| != |b| || (k < |a| && k < |b| && a[k] != b[k])
    ensures a != b
  {
  }

  lemma {:induction false} TopLevelFieldsDiffer()
    ensures |TopLevelFields| == 7
    ensures forall j, k :: 0 <= j < k < 7 ==> TopLevelFields[j] != TopLevelFields[k]
  {
    DifferentTexts("searchActions", "uncertainties", 0);
    DifferentTexts("fetchActions", "evidenceUrls", 0);
    DifferentTexts("decision", "findings", 0);
  }

  lemma {:induction false} EnvelopeFieldAt(d: Decision, k: nat)
    requires k < 7
    ensures TopLevelFields[k] == EnvelopeFields(d)[k].0
    ensures FieldOf(EnvelopeFields(d), TopLevelFields[k]) == Some(EnvelopeFields(d)[k].1)
  {
    var input := EnvelopeFields(d);
    assert forall j :: 0 <= j < 7 ==> input[j].0 == TopLevelFields[j];
    TopLevelFieldsDiffer();
    FieldAt(input, k);
  }

  lemma {:induction false} EnvelopeReads(d: Decision)
    ensures var input := EnvelopeFields(d);
      && !RejectsFields(input, TopLevelFields) && HasAllFields(input)
      && FieldOf(input, "decision") == Some(Str(KindName(d.kind)))
      && FieldOf(input, "searchActions") == Some(Arr(EncodeSearches(d.searchActions)))
      && FieldOf(input, "fetchActions") == Some(Arr(EncodeFetches(d.fetchActions)))
      && FieldOf(input, "uncertainties") == Some(Arr(EncodeStrings(d.uncertainties)))
      && FieldOf(input, "finalAnswer") == Some(EncodeAnswer(d.finalAnswer))
      && FieldOf(input, "evidenceUrls") == Some(Arr(EncodeStrings(d.evidenceUrls)))
      && FieldOf(input, "findings") == Some(Arr(EncodeFindings(d.findings)))
  {
    var input := EnvelopeFields(d);
    forall k | 0 <= k < 7 ensures input[k].0 in TopLevelFields {
      EnvelopeFieldAt(d, k);
    }
    AllExpected(input, TopLevelFields);
    EnvelopeFieldAt(d, 0);
    EnvelopeFieldAt(d, 1);
    EnvelopeFieldAt(d, 2);
    EnvelopeFieldAt(d, 3);
    EnvelopeFieldAt(d, 4);
    EnvelopeFieldAt(d, 5);
    EnvelopeFieldAt(d, 6);
  }

  lemma {:induction false} SearchFieldsRead(action: SearchAction)
    ensures var fields := EncodeSearch(action).fields;
      && !RejectsFields(fields, SearchFields)
      && FieldOf(fields, "query") == Some(Str(action.query)) && FieldOf(fields, "retry") == Some(Bool(action.retry))
  {
    var fields := EncodeSearch(action).fields;
    AllExpected(fields, SearchFields);
    DifferentTexts("query", "retry", 0);
    FieldAt(fields, 0);
    FieldAt(fields, 1);
  }

  lemma {:induction false} SearchReads(action: SearchAction)
    requires Clean(action.query, 500)
    ensures ReadSearch(EncodeSearch(action)) == Ok(action)
  {
    SearchFieldsRead(action);
  }

  lemma {:induction false} FetchFieldsRead(action: FetchAction)
    ensures var fields := EncodeFetch(action).fields;
      && !RejectsFields(fields, FetchFields)
      && FieldOf(fields, "url") == Some(Str(action.url)) && FieldOf(fields, "retry") == Some(Bool(action.retry))
  {
    var fields := EncodeFetch(action).fields;
    AllExpected(fields, FetchFields);
    DifferentTexts("url", "retry", 0);
    FieldAt(fields, 0);
    FieldAt(fields, 1);
  }

  lemma {:induction false} NormalIsNotBlank(norm: Norm, url: string)
    requires IsUrlNorm(norm) && Normal(norm, url)
    ensures !Blank(url)
  {
  }

  lemma {:induction false} FetchChecks(norm: Norm, action: FetchAction)
    requires Normal(norm, action.url) && !Blank(action.url)
    ensures var r := CheckFetch(norm, Some(Str(action.url)), Some(Bool(action.retry)));
      if |action.url| <= 2048 then r == Ok(action) else r.Err?
  {
  }

  lemma {:induction false} FetchRecordReads(norm: Norm, fields: seq<(string, Json)>)
    requires !RejectsFields(fields, FetchFields)
    ensures ReadFetch(norm, Obj(fields)) == CheckFetch(norm, FieldOf(fields, "url"), FieldOf(fields, "retry"))
  {
  }

  lemma {:induction false} FetchReads(norm: Norm, action: FetchAction)
    requires Normal(norm, action.url) && !Blank(action.url)
    ensures var r := ReadFetch(norm, EncodeFetch(action));
      if |action.url| <= 2048 then r == Ok(action) else r.Err?
  {
    FetchFieldsRead(action);
    FetchRecordReads(norm, EncodeFetch(action).fields);
    FetchChecks(norm, action);
  }

  predicate Fit(urls: seq<string>) {
    forall k :: 0 <= k < |urls| ==> |urls[k]| <= 2048
  }

  predicate FetchesFit(actions: seq<FetchAction>) {
    forall k :: 0 <= k < |actions| ==> |actions[k].url| <= 2048
  }

  predicate FindingsFit(findings: seq<Finding>) {
    forall k :: 0 <= k < |findings| ==> Fit(findings[k].evidenceUrls)
  }

  lemma {:induction false} Step<T>(s: seq<T>, i: nat)
    requires i < |s|
    ensures s[i..] != [] && s[i..][0] == s[i] && s[i..][1..] == s[i + 1..]
    ensures s[..i] + [s[i]] == s[..i + 1]
  {
  }

  lemma {:induction false} Ends<T>(s: seq<T>)
    ensures s[|s|..] == [] && s[..|s|] == s && s[0..] == s && s[..0] == []
  {
  }

  lemma {:induction false} SearchesRead(actions: seq<SearchAction>, i: nat)
    requires SearchesOk(actions) && i <= |actions|
    ensures ParseSearchActions(EncodeSearches(actions)[i..], actions[..i]) == Ok(actions)
    decreases |actions| - i
  {
    if i < |actions| {
      Step(EncodeSearches(actions), i);
      Step(actions, i);
      SearchReads(actions[i]);
      assert !HasQuery(actions[..i], actions[i].query);
      SearchesRead(actions, i + 1);
    } else {
      Ends(actions);
    }
  }

  lemma {:induction false} FetchHead(norm: Norm, items: seq<Json>, before: seq<FetchAction>, action: FetchAction)
    requires items != [] && ReadFetch(norm, items[0]) == Ok(action) && !HasUrl(before, action.url)
    ensures ParseFetchActions(norm, items, before) == ParseFetchActions(norm, items[1..], before + [action])
  {
  }

  lemma {:induction false} FetchIsNew(norm: Norm, actions: seq<FetchAction>, i: nat)
    requires FetchesOk(norm, actions) && i < |actions|
    ensures Normal(norm, actions[i].url) && !HasUrl(actions[..i], actions[i].url)
  {
  }

  lemma {:induction false} FetchesFitStep(actions: seq<FetchAction>, i: nat)
    requires i < |actions|
    ensures FetchesFit(actions[i..]) <==> |actions[i].url| <= 2048 && FetchesFit(actions[i + 1..])
  {
    assert actions[i..] == [actions[i]] + actions[i + 1..];
  }

  lemma {:induction false} FetchesRead(norm: Norm, actions: seq<FetchAction>, i: nat)
    requires FetchesOk(norm, actions) && i <= |actions|
    requires forall k :: 0 <= k < |actions| ==> !Blank(actions[k].url)
    ensures var r := ParseFetchActions(norm, EncodeFetches(actions)[i..], actions[..i]);
      if FetchesFit(actions[i..]) then r == Ok(actions) else r.Err?
    decreases |actions| - i
  {
    if i < |actions| {
      FetchIsNew(norm, actions, i);
      FetchReads(norm, actions[i]);
      FetchesFitStep(actions, i);
      FetchesRead(norm, actions, i + 1);
      Step(EncodeFetches(actions), i);
      Step(actions, i);
      if |actions[i].url| <= 2048 {
        FetchHead(norm, EncodeFetches(actions)[i..], actions[..i], actions[i]);
      }
    } else {
      Ends(actions);
    }
  }

  lemma {:induction false} UrlsRead(norm: Norm, urls: seq<string>, i: nat)
    requires UrlsOk(norm, urls) && i <= |urls|
    ensures var r := ParseUrls(norm, EncodeStrings(urls)[i..], urls[..i]);
      if Fit(urls[i..]) then r == Ok(urls) else r.Err?
    decreases |urls| - i
  {
    if i < |urls| {
      Step(EncodeStrings(urls), i);
      Step(urls, i);
      assert Normal(norm, urls[i]) && urls[i] !in urls[..i];
      UrlsRead(norm, urls, i + 1);
      assert Fit(urls[i..]) <==> |urls[i]| <= 2048 && Fit(urls[i + 1..]) by {
        assert urls[i..] == [urls[i]] + urls[i + 1..];
      }
    } else {
      Ends(urls);
    }
  }

  lemma {:induction false} DispositionReads(disposition: Disposition)
    ensures DispositionOf(Some(Str(DispositionName(disposition)))) == Some(disposition)
  {
    DifferentTexts("confirmed", "uncertain", 0);
    DifferentTexts("excluded", "uncertain", 0);
    DifferentTexts("excluded", "confirmed", 0);
  }

  lemma {:induction false} KindReads(kind: DecisionKind)
    ensures KindOf(Str(KindName(kind))) == Some(kind)
  {
    DifferentTexts("search", "review", 0);
    DifferentTexts("search", "finish", 0);
    DifferentTexts("review", "finish", 0);
  }

  lemma {:induction false} FindingFieldsRead(f: Finding)
    ensures var fields := EncodeFinding(f).fields;
      && !RejectsFields(fields, FindingFields)
      && FieldOf(fields, "id") == Some(Str(f.id)) && FieldOf(fields, "claim") == Some(Str(f.claim))
      && FieldOf(fields, "disposition") == Some(Str(DispositionName(f.disposition)))
      && FieldOf(fields, "evidenceUrls") == Some(Arr(EncodeStrings(f.evidenceUrls)))
  {
    var fields := EncodeFinding(f).fields;
    AllExpected(fields, FindingFields);
    FieldAt(fields, 0);
    FieldAt(fields, 1);
    FieldAt(fields, 2);
    FieldAt(fields, 3);
  }

  lemma {:induction false} UrlListReads(norm: Norm, urls: seq<string>)
    requires UrlsOk(norm, urls)
    ensures var r := ParseUrls(norm, EncodeStrings(urls), []);
      if Fit(urls) then r == Ok(urls) else r.Err?
  {
    UrlsRead(norm, urls, 0);
    Ends(EncodeStrings(urls));
    Ends(urls);
  }

  lemma {:induction false} FindingReads(norm: Norm, f: Finding)
    requires FindingOk(norm, f)
    ensures var r := ReadFinding(norm, EncodeFinding(f));
      if Fit(f.evidenceUrls) then r == Ok(f) else r.Err?
  {
    FindingFieldsRead(f);
    DispositionReads(f.disposition);
    UrlListReads(norm, f.evidenceUrls);
  }

  lemma {:induction false} FindingHead(norm: Norm, items: seq<Json>, before: seq<Finding>, f: Finding)
    requires items != [] && ReadFinding(norm, items[0]) == Ok(f) && !HasFinding(before, f.id, f.claim)
    ensures ParseFindings(norm, items, before) == ParseFindings(norm, items[1..], before + [f])
  {
  }

  lemma {:induction false} FindingIsNew(norm: Norm, findings: seq<Finding>, i: nat)
    requires FindingsOk(norm, findings) && i < |findings|
    ensures FindingOk(norm, findings[i]) && !HasFinding(findings[..i], findings[i].id, findings[i].claim)
  {
  }

  lemma {:induction false} FindingsFitStep(findings: seq<Finding>, i: nat)
    requires i < |findings|
    ensures FindingsFit(findings[i..]) <==> Fit(findings[i].evidenceUrls) && FindingsFit(findings[i + 1..])
  {
    assert findings[i..] == [findings[i]] + findings[i + 1..];
  }

  lemma {:induction false} FindingsRead(norm: Norm, findings: seq<Finding>, i: nat)
    requires FindingsOk(norm, findings) && i <= |findings|
    ensures var r := ParseFindings(norm, EncodeFindings(findings)[i..], findings[..i]);
      if FindingsFit(findings[i..]) then r == Ok(findings) else r.Err?
    decreases |findings| - i
  {
    if i < |findings| {
      FindingIsNew(norm, findings, i);
      FindingReads(norm, findings[i]);
      FindingsFitStep(findings, i);
      FindingsRead(norm, findings, i + 1);
      Step(EncodeFindings(findings), i);
      Step(findings, i);
      if Fit(findings[i].evidenceUrls) {
        FindingHead(norm, EncodeFindings(findings)[i..], findings[..i], findings[i]);
      }
    } else {
      Ends(findings);
    }
  }

  lemma {:induction false} FindingListReads(norm: Norm, findings: seq<Finding>)
    requires FindingsOk(norm, findings)
    ensures var r := ParseFindings(norm, EncodeFindings(findings), []);
      if FindingsFit(findings) then r == Ok(findings) else r.Err?
  {
    FindingsRead(norm, findings, 0);
    Ends(EncodeFindings(findings));
    Ends(findings);
  }

  // ---------------------------------------------------------------------------
  // The derived evidence list
  // ---------------------------------------------------------------------------

  /** `at` gives for each entry of `list` the place in `all` where it first occurs. */
  ghost predicate FirstMentions<T>(list: seq<T>, all: seq<T>, at: seq<nat>) {
    && |at| == |list|
    && (forall i :: 0 <= i < |at| ==> at[i] < |all| && all[at[i]] == list[i] && list[i] !in all[..at[i]])
    && (forall i, k :: 0 <= i < k < |at| ==> at[i] < at[k])
    && (forall p :: 0 <= p < |all| ==> all[p] in list)
  }

  /** The ordered, duplicate-free union: the elements of `all`, each once, by first mention. */
  ghost predicate IsOrderedUnion<T>(list: seq<T>, all: seq<T>) {
    exists at :: FirstMentions(list, all, at)
  }

  lemma {:induction false} UnionHasNoDuplicates<T>(list: seq<T>, all: seq<T>)
    requires IsOrderedUnion(list, all)
    ensures forall i, k :: 0 <= i < k < |list| ==> list[i] != list[k]
    ensures forall i :: 0 <= i < |list| ==> list[i] in all
  {
    var at: seq<nat> :| FirstMentions(list, all, at);
    forall i, k | 0 <= i < k < |list| ensures list[i] != list[k] {
      assert all[..at[k]][at[i]] == list[i];
    }
  }

  lemma {:induction false} UnionExtends<T>(list: seq<T>, all: seq<T>, x: T)
    requires IsOrderedUnion(list, all)
    ensures IsOrderedUnion(if x in list then list else list + [x], all + [x])
  {
    var at: seq<nat> :| FirstMentions(list, all, at);
    var all' := all + [x];
    forall i | 0 <= i < |at| ensures all'[..at[i]] == all[..at[i]] {}
    if x in list {
      assert FirstMentions(list, all', at);
    } else {
      assert x !in all;
      assert all'[..|all|] == all;
      assert FirstMentions(list + [x], all', at + [|all|]);
    }
  }

  lemma {:induction false} OneAtATime<T>(all: seq<T>, urls: seq<T>)
    requires urls != []
    ensures all + [urls[0]] + urls[1..] == all + urls
  {
  }

  lemma {:induction false} AddAllIsUnion<T>(list: seq<T>, all: seq<T>, urls: seq<T>)
    requires IsOrderedUnion(list, all)
    ensures IsOrderedUnion(AddAll(list, urls), all + urls)
    decreases |urls|
  {
    if urls == [] {
      assert all + urls == all;
    } else {
      var list' := if urls[0] in list then list else list + [urls[0]];
      UnionExtends(list, all, urls[0]);
      AddAllIsUnion(list', all + [urls[0]], urls[1..]);
      OneAtATime(all, urls);
      assert AddAll(list, urls) == AddAll(list', urls[1..]);
    }
  }

  lemma {:induction false} CitationsAreUnion(findings: seq<Finding>)
    ensures IsOrderedUnion(AddAll([], CitedUrls(findings)), CitedUrls(findings))
  {
    var none: seq<string> := [];
    assert FirstMentions(none, none, []);
    AddAllIsUnion(none, none, CitedUrls(findings));
    assert none + CitedUrls(findings) == CitedUrls(findings);
  }

  /** The evidence list of an accepted decision holds the citations of its findings and nothing else. */
  lemma {:induction false} EvidenceIsTheUnionOfCitations(norm: Norm, value: Json)
    requires IsUrlNorm(norm) && Parse(norm, value).Ok?
    ensures var d := Parse(norm, value).value; IsOrderedUnion(d.evidenceUrls, CitedUrls(d.findings))
  {
    AcceptedIsWellFormed(norm, value);
    CitationsAreUnion(Parse(norm, value).value.findings);
  }

  lemma {:induction false} CitedUrlsAre(findings: seq<Finding>, url: string)
    ensures url in CitedUrls(findings) <==> exists k :: 0 <= k < |findings| && url in findings[k].evidenceUrls
  {
    if findings != [] {
      CitedUrlsAre(findings[1..], url);
      if k :| 0 <= k < |findings| && url in findings[k].evidenceUrls {
        if k > 0 { assert findings[1..][k - 1] == findings[k]; }
      }
      if url in CitedUrls(findings[1..]) {
        var k :| 0 <= k < |findings[1..]| && url in findings[1..][k].evidenceUrls;
        assert findings[k + 1] == findings[1..][k];
      }
    }
  }

  lemma {:induction false} CitationsAreNormal(norm: Norm, findings: seq<Finding>)
    requires FindingsOk(norm, findings)
    ensures var urls := AddAll([], CitedUrls(findings));
      UrlsOk(norm, urls) && (Fit(urls) <==> FindingsFit(findings))
  {
    var all := CitedUrls(findings);
    var urls := AddAll([], all);
    CitationsAreUnion(findings);
    UnionHasNoDuplicates(urls, all);
    var at: seq<nat> :| FirstMentions(urls, all, at);
    forall i | 0 <= i < |urls|
      ensures Normal(norm, urls[i])
      ensures FindingsFit(findings) ==> |urls[i]| <= 2048
    {
      CitedUrlsAre(findings, urls[i]);
    }
    if Fit(urls) {
      forall k, j | 0 <= k < |findings| && 0 <= j < |findings[k].evidenceUrls|
        ensures |findings[k].evidenceUrls[j]| <= 2048
      {
        CitedUrlsAre(findings, findings[k].evidenceUrls[j]);
        assert findings[k].evidenceUrls[j] in urls;
      }
    }
  }

  // ---------------------------------------------------------------------------
  // The fixpoint
  // ---------------------------------------------------------------------------

  /** The sizes a decision must keep to pass the parser a second time. */
  predicate Reencodable(d: Decision) {
    && FetchesFit(d.fetchActions)
    && Fit(d.evidenceUrls) && |d.evidenceUrls| <= MaxEvidenceUrls
    && (d.kind == Finish ==> d.finalAnswer.Some? && !Blank(d.finalAnswer.value))
  }

  lemma {:induction false} UncertaintiesRead(texts: seq<string>)
    requires |texts| <= 16 && forall k :: 0 <= k < |texts| ==> |texts[k]| <= 500
    ensures !BadUncertainties(Arr(EncodeStrings(texts))) && UncertaintiesOf(Arr(EncodeStrings(texts))) == texts
  {
    assert Strings(EncodeStrings(texts)) == texts;
  }

  /** The answer passes a second time unless normalising made it blank. */
  lemma {:induction false} AnswerReads(kind: DecisionKind, answer: Option<string>, searches: nat, fetches: nat, uncertainties: Json)
    requires ActionsFit(kind, searches, fetches) && !BadUncertainties(uncertainties)
    requires kind == Finish <==> answer.Some?
    requires kind == Finish ==> |answer.value| <= 12000 && NormalizeFinalAnswer(answer.value) == answer.value
    ensures HeadError(kind, searches, fetches, uncertainties, EncodeAnswer(answer)).None?
      <==> (kind == Finish ==> !Blank(answer.value))
    ensures FinalAnswerOf(kind, EncodeAnswer(answer)) == answer
  {
  }

  lemma {:induction false} CitationsReadBack(norm: Norm, d: Decision, evidence: Json, rawFindings: Json)
    requires d.kind != Finish ==> d.evidenceUrls == [] && d.findings == []
    requires d.evidenceUrls == AddAll([], CitedUrls(d.findings))
    requires evidence.Arr? && |evidence.items| == |d.evidenceUrls|
    requires rawFindings.Arr? && |rawFindings.items| == |d.findings| <= MaxFindings
    requires var r := ParseUrls(norm, evidence.items, []); if Fit(d.evidenceUrls) then r == Ok(d.evidenceUrls) else r.Err?
    requires Fit(d.evidenceUrls) ==> ParseFindings(norm, rawFindings.items, []) == Ok(d.findings)
    ensures var r := ParseCitations(norm, d.kind, d.searchActions, d.fetchActions, d.uncertainties, d.finalAnswer,
                                    evidence, rawFindings);
      if Fit(d.evidenceUrls) && |d.evidenceUrls| <= MaxEvidenceUrls then r == Ok(d) else r.Err?
  {
  }

  lemma {:induction false} EnvelopeParses(norm: Norm, d: Decision)
    ensures Parse(norm, Encode(d)) ==
      ParseFields(norm, Str(KindName(d.kind)), Arr(EncodeSearches(d.searchActions)), Arr(EncodeFetches(d.fetchActions)),
                  Arr(EncodeStrings(d.uncertainties)),
                  EncodeAnswer(d.finalAnswer),
                  Arr(EncodeStrings(d.evidenceUrls)), Arr(EncodeFindings(d.findings)))
  {
    EnvelopeReads(d);
  }

  lemma {:induction false} SearchListReads(actions: seq<SearchAction>)
    requires SearchesOk(actions)
    ensures ParseSearchActions(EncodeSearches(actions), []) == Ok(actions)
  {
    SearchesRead(actions, 0);
    Ends(EncodeSearches(actions));
    Ends(actions);
  }

  lemma {:induction false} FetchListReads(norm: Norm, actions: seq<FetchAction>)
    requires IsUrlNorm(norm) && FetchesOk(norm, actions)
    ensures var r := ParseFetchActions(norm, EncodeFetches(actions), []);
      if FetchesFit(actions) then r == Ok(actions) else r.Err?
  {
    forall k | 0 <= k < |actions| ensures !Blank(actions[k].url) {
      NormalIsNotBlank(norm, actions[k].url);
    }
    FetchesRead(norm, actions, 0);
    Ends(EncodeFetches(actions));
    Ends(actions);
  }

  lemma {:induction false} FieldsParse(norm: Norm, d: Decision, searchActions: Json, fetchActions: Json,
                    uncertainties: Json, answer: Json, evidence: Json, rawFindings: Json)
    requires searchActions.Arr? && |searchActions.items| <= MaxActions
    requires fetchActions.Arr? && |fetchActions.items| <= MaxActions
    requires ParseSearchActions(searchActions.items, []) == Ok(d.searchActions)
    requires var r := ParseFetchActions(norm, fetchActions.items, []);
      if FetchesFit(d.fetchActions) then r == Ok(d.fetchActions) else r.Err?
    ensures var r := ParseFields(norm, Str(KindName(d.kind)), searchActions, fetchActions,
                                 uncertainties, answer, evidence, rawFindings);
      if FetchesFit(d.fetchActions) then
        r == ParseRest(norm, d.kind, d.searchActions, d.fetchActions, uncertainties, answer, evidence, rawFindings)
      else r.Err?
  {
    KindReads(d.kind);
  }

  lemma {:induction false} RestReadsBack(norm: Norm, d: Decision)
    requires WellFormed(norm, d)
    ensures var r := ParseRest(norm, d.kind, d.searchActions, d.fetchActions, Arr(EncodeStrings(d.uncertainties)),
                               EncodeAnswer(d.finalAnswer),
                               Arr(EncodeStrings(d.evidenceUrls)), Arr(EncodeFindings(d.findings)));
      if Fit(d.evidenceUrls) && |d.evidenceUrls| <= MaxEvidenceUrls && (d.kind == Finish ==> !Blank(d.finalAnswer.value))
      then r == Ok(d) else r.Err?
  {
    CitationsAreNormal(norm, d.findings);
    UrlListReads(norm, d.evidenceUrls);
    FindingListReads(norm, d.findings);
    var evidence, rawFindings := Arr(EncodeStrings(d.evidenceUrls)), Arr(EncodeFindings(d.findings));
    var uncertainties := Arr(EncodeStrings(d.uncertainties));
    UncertaintiesRead(d.uncertainties);
    AnswerReads(d.kind, d.finalAnswer, |d.searchActions|, |d.fetchActions|, uncertainties);
    CitationsReadBack(norm, d, evidence, rawFindings);
    RestIsHeadAndCitations(norm, d.kind, d.searchActions, d.fetchActions, uncertainties, EncodeAnswer(d.finalAnswer),
                           evidence, rawFindings);
  }

  lemma {:induction false} WellFormedIsFixpointIff(norm: Norm, d: Decision)
    requires IsUrlNorm(norm) && WellFormed(norm, d)
    ensures if Reencodable(d) then Parse(norm, Encode(d)) == Ok(d) else Parse(norm, Encode(d)).Err?
  {
    SearchListReads(d.searchActions);
    FetchListReads(norm, d.fetchActions);
    RestReadsBack(norm, d);
    EnvelopeParses(norm, d);
    FieldsParse(norm, d, Arr(EncodeSearches(d.searchActions)), Arr(EncodeFetches(d.fetchActions)),
                Arr(EncodeStrings(d.uncertainties)), EncodeAnswer(d.finalAnswer),
                Arr(EncodeStrings(d.evidenceUrls)), Arr(EncodeFindings(d.findings)));
  }

  /**
   An accepted decision is a fixpoint of encoding and parsing exactly when its URLs still
   fit 2048 characters, its derived evidence list still fits 100 entries, and a finish
   still has a non-blank answer after normalising. Otherwise the parser rejects it.
   */
  lemma {:induction false} AcceptedIsFixpointIff(norm: Norm, value: Json)
    requires IsUrlNorm(norm) && Parse(norm, value).Ok?
    ensures var d := Parse(norm, value).value;
      && (Parse(norm, Encode(d)) == Ok(d) <==> Reencodable(d))
      && (!Reencodable(d) ==> Parse(norm, Encode(d)).Err?)
  {
    AcceptedIsWellFormed(norm, value);
    WellFormedIsFixpointIff(norm, Parse(norm, value).value);
  }
}
