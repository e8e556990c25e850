/** `parseAgentDecision` in its own form: loops that push into arrays, with early exits. */
module DecisionParser {
  import opened Wrappers
  import opened JsText
  import opened DecisionProtocol

  method ReadSearchActions(items: seq<Json>) returns (r: Result<seq<SearchAction>, Error>)
    ensures r == ParseSearchActions(items, [])
  {
    var actions: seq<SearchAction> := [];
    var i := 0;
    assert items[0..] == items;
    while i < |items|
      invariant 0 <= i <= |items|
      invariant ParseSearchActions(items, []) == ParseSearchActions(items[i..], actions)
    {
      var read := ReadSearch(items[i]);
      assert items[i..][1..] == items[i + 1..];
      if read.Err? {
        return Err(read.error);
      }
      if HasQuery(actions, read.value.query) {
        return Err(Error(ActionScope, DuplicateAction));
      }
      actions := actions + [read.value];
      i := i + 1;
    }
    r := Ok(actions);
  }

  method ReadFetchActions(norm: Norm, items: seq<Json>) returns (r: Result<seq<FetchAction>, Error>)
    ensures r == ParseFetchActions(norm, items, [])
  {
    var actions: seq<FetchAction> := [];
    var i := 0;
    assert items[0..] == items;
    while i < |items|
      invariant 0 <= i <= |items|
      invariant ParseFetchActions(norm, items, []) == ParseFetchActions(norm, items[i..], actions)
    {
      var read := ReadFetch(norm, items[i]);
      assert items[i..][1..] == items[i + 1..];
      if read.Err? {
        return Err(read.error);
      }
      if HasUrl(actions, read.value.url) {
        return Err(Error(ActionScope, DuplicateAction));
      }
      actions := actions + [read.value];
      i := i + 1;
    }
    r := Ok(actions);
  }

  method ReadUrls(norm: Norm, items: seq<Json>) returns (r: Result<seq<string>, Error>)
    ensures r == ParseUrls(norm, items, [])
  {
    var urls: seq<string> := [];
    var i := 0;
    assert items[0..] == items;
    while i < |items|
      invariant 0 <= i <= |items|
      invariant ParseUrls(norm, items, []) == ParseUrls(norm, items[i..], urls)
    {
      assert items[i..][1..] == items[i + 1..];
      if !items[i].Str? || |items[i].s| > 2048 {
        return Err(Error(ActionScope, InvalidEvidenceUrl));
      }
      var parsed := norm(items[i].s);
      if parsed.None? {
        return Err(Error(ActionScope, InvalidEvidenceUrl));
      }
      if parsed.value !in urls {
        urls := urls + [parsed.value];
      }
      i := i + 1;
    }
    r := Ok(urls);
  }

  method ReadFindings(norm: Norm, items: seq<Json>) returns (r: Result<seq<Finding>, Error>)
    ensures r == ParseFindings(norm, items, [])
  {
    var findings: seq<Finding> := [];
    var i := 0;
    assert items[0..] == items;
    while i < |items|
      invariant 0 <= i <= |items|
      invariant ParseFindings(norm, items, []) == ParseFindings(norm, items[i..], findings)
    {
      var read := ReadFinding(norm, items[i]);
      assert items[i..][1..] == items[i + 1..];
      if read.Err? {
        return Err(read.error);
      }
      if HasFinding(findings, read.value.id, read.value.claim) {
        return Err(Error(DecisionScope, DuplicateFinding));
      }
      findings := findings + [read.value];
      i := i + 1;
    }
    r := Ok(findings);
  }

  method ReadCitations(norm: Norm, kind: DecisionKind, searches: seq<SearchAction>, fetches: seq<FetchAction>,
                       uncertainties: seq<string>, answer: Option<string>, evidence: Json, rawFindings: Json)
    returns (r: Result<Decision, Error>)
    ensures r == ParseCitations(norm, kind, searches, fetches, uncertainties, answer, evidence, rawFindings)
  {
    if !evidence.Arr? || |evidence.items| > MaxEvidenceUrls { return Err(Error(ActionScope, InvalidEvidenceUrls)); }
    var urls := ReadUrls(norm, evidence.items);
    if urls.Err? { return Err(urls.error); }
    if kind != Finish && |urls.value| > 0 { return Err(Error(DecisionScope, InvalidEvidenceUrls)); }
    if !rawFindings.Arr? || |rawFindings.items| > MaxFindings { return Err(Error(ActionScope, InvalidFindings)); }
    var findings := ReadFindings(norm, rawFindings.items);
    if findings.Err? { return Err(findings.error); }
    if kind != Finish && |findings.value| > 0 { return Err(Error(DecisionScope, InvalidFindings)); }
    var boundEvidence := if kind == Finish then AddAll([], CitedUrls(findings.value)) else [];
    r := Ok(Decision(kind, searches, fetches, uncertainties, answer, boundEvidence, findings.value));
  }

  method CheckHead(kind: DecisionKind, searches: nat, fetches: nat, uncertainties: Json, answer: Json)
    returns (r: Option<Error>)
    ensures r == HeadError(kind, searches, fetches, uncertainties, answer)
  {
    if !ActionsFit(kind, searches, fetches) { return Some(Error(DecisionScope, InvalidActions)); }
    if BadUncertainties(uncertainties) { return Some(Error(ActionScope, InvalidUncertainties)); }
    if kind == Finish && (!answer.Str? || Blank(answer.s)) { return Some(Error(DecisionScope, MissingFinalAnswer)); }
    if answer.Str? && |answer.s| > 12000 { return Some(Error(DecisionScope, InvalidFinalAnswer)); }
    if kind != Finish && answer != Null { return Some(Error(DecisionScope, InvalidFinalAnswer)); }
    r := None;
  }

  method ReadRest(norm: Norm, kind: DecisionKind, searches: seq<SearchAction>, fetches: seq<FetchAction>,
                  uncertainties: Json, answer: Json, evidence: Json, rawFindings: Json)
    returns (r: Result<Decision, Error>)
    ensures r == ParseRest(norm, kind, searches, fetches, uncertainties, answer, evidence, rawFindings)
  {
    var problem := CheckHead(kind, |searches|, |fetches|, uncertainties, answer);
    if problem.Some? {
      r := Err(problem.value);
    } else {
      r := ReadCitations(norm, kind, searches, fetches, UncertaintiesOf(uncertainties), FinalAnswerOf(kind, answer),
                         evidence, rawFindings);
    }
    RestIsHeadAndCitations(norm, kind, searches, fetches, uncertainties, answer, evidence, rawFindings);
  }

  /** The parser; `value` is what `JSON.parse` returned. */
  method ParseAgentDecision(norm: Norm, value: Json) returns (r: Result<Decision, Error>)
    ensures r == Parse(norm, value)
  {
    if !value.Obj? { return Err(Error(JsonScope, InvalidEnvelope)); }
    var input := value.fields;
    if RejectsFields(input, TopLevelFields) { return Err(Error(DecisionScope, UnexpectedField)); }
    if !HasAllFields(input) { return Err(Error(DecisionScope, MissingField)); }
    var kind := KindOf(FieldOf(input, "decision").value);
    if kind.None? { return Err(Error(DecisionScope, UnknownDecision)); }
    var searchActions, fetchActions := FieldOf(input, "searchActions").value, FieldOf(input, "fetchActions").value;
    if !searchActions.Arr? || !fetchActions.Arr? { return Err(Error(ActionScope, InvalidActions)); }
    if |searchActions.items| > MaxActions || |fetchActions.items| > MaxActions {
      return Err(Error(ActionScope, ActionLimitExceeded));
    }
    var searches := ReadSearchActions(searchActions.items);
    if searches.Err? { return Err(searches.error); }
    var fetches := ReadFetchActions(norm, fetchActions.items);
    if fetches.Err? { return Err(fetches.error); }
    r := ReadRest(norm, kind.value, searches.value, fetches.value,
                  FieldOf(input, "uncertainties").value, FieldOf(input, "finalAnswer").value,
                  FieldOf(input, "evidenceUrls").value, FieldOf(input, "findings").value);
  }
}
