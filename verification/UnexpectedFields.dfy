/**
 When the decision parser complains about a field it does not know. The name of the
 first such field is tested for truth, so a field whose name is empty is not complained
 about and hides all those after it.
 */
module UnexpectedFields {
  import opened Wrappers
  import opened DecisionProtocol

  type Fields = seq<(string, Json)>

  /** The first field outside `allowed` is field `k`. */
  predicate UnexpectedAt(fields: Fields, allowed: seq<string>, k: nat) {
    k < |fields| && fields[k].0 !in allowed && forall j :: 0 <= j < k ==> fields[j].0 in allowed
  }

  /** There is an unexpected field, and the name of the first one is not empty. */
  ghost predicate FirstUnexpectedHasName(fields: Fields, allowed: seq<string>) {
    exists k: nat :: UnexpectedAt(fields, allowed, k) && fields[k].0 != ""
  }

  /** The expected fields alone. */
  function Expected(fields: Fields, allowed: seq<string>): Fields {
    if fields == [] then []
    else if fields[0].0 in allowed then [fields[0]] + Expected(fields[1..], allowed)
    else Expected(fields[1..], allowed)
  }

  lemma {:induction false} FirstUnexpectedIs(fields: Fields, allowed: seq<string>, k: nat)
    requires UnexpectedAt(fields, allowed, k)
    ensures FirstUnexpected(fields, allowed) == Some(fields[k].0)
  {
    if k > 0 {
      FirstUnexpectedIs(fields[1..], allowed, k - 1);
    }
  }

  lemma {:induction false} FirstUnexpectedAt(fields: Fields, allowed: seq<string>) returns (k: nat)
    requires FirstUnexpected(fields, allowed).Some?
    ensures UnexpectedAt(fields, allowed, k)
  {
    if fields[0].0 !in allowed {
      k := 0;
    } else {
      var j := FirstUnexpectedAt(fields[1..], allowed);
      k := j + 1;
      forall i | 0 <= i < k ensures fields[i].0 in allowed {
        if i > 0 { assert fields[i] == fields[1..][i - 1]; }
      }
    }
  }

  lemma {:induction false} RejectsFieldsIff(fields: Fields, allowed: seq<string>)
    ensures RejectsFields(fields, allowed) <==> FirstUnexpectedHasName(fields, allowed)
  {
    if FirstUnexpected(fields, allowed).Some? {
      var k := FirstUnexpectedAt(fields, allowed);
      FirstUnexpectedIs(fields, allowed, k);
    }
    if k: nat :| UnexpectedAt(fields, allowed, k) && fields[k].0 != "" {
      FirstUnexpectedIs(fields, allowed, k);
    }
  }

  // ---------------------------------------------------------------------------
  // Exactly when it is said
  // ---------------------------------------------------------------------------

  /** The answer is a complaint about an unexpected field of this scope. */
  predicate SaysUnexpectedField<T>(r: Result<T, Error>, scope: Scope) {
    r == Err(Error(scope, UnexpectedField))
  }

  predicate Blames<T>(r: Result<T, Error>, scope: Scope) {
    r.Err? ==> r.error.scope == scope
  }

  lemma {:induction false} SearchesBlameActions(items: seq<Json>, before: seq<SearchAction>)
    ensures Blames(ParseSearchActions(items, before), ActionScope)
    decreases |items|
  {
    if items != [] {
      var r := ReadSearch(items[0]);
      if r.Ok? { SearchesBlameActions(items[1..], before + [r.value]); }
    }
  }

  lemma {:induction false} FetchesBlameActions(norm: Norm, items: seq<Json>, before: seq<FetchAction>)
    ensures Blames(ParseFetchActions(norm, items, before), ActionScope)
    decreases |items|
  {
    if items != [] {
      var r := ReadFetch(norm, items[0]);
      if r.Ok? { FetchesBlameActions(norm, items[1..], before + [r.value]); }
    }
  }

  lemma {:induction false} UrlsBlameUrls(norm: Norm, items: seq<Json>, before: seq<string>)
    ensures var r := ParseUrls(norm, items, before); r.Err? ==> r.error == Error(ActionScope, InvalidEvidenceUrl)
    decreases |items|
  {
    if items != [] && items[0].Str? && norm(items[0].s).Some? {
      var url := norm(items[0].s).value;
      UrlsBlameUrls(norm, items[1..], if url in before then before else before + [url]);
    }
  }

  lemma {:induction false} CheckedFindingIs(norm: Norm, id: Option<Json>, claim: Option<Json>, disposition: Option<Json>,
                         evidence: Option<Json>)
    ensures var r := CheckFinding(norm, id, claim, disposition, evidence);
      || r.Ok? || r == Err(Error(ActionScope, InvalidFinding)) || r == Err(Error(ActionScope, InvalidFindingDisposition))
      || (evidence.Some? && evidence.value.Arr? && var urls := ParseUrls(norm, evidence.value.items, []);
          urls.Err? && r == Err(urls.error))
  {
  }

  lemma {:induction false} CheckedFindingBlames(norm: Norm, id: Option<Json>, claim: Option<Json>, disposition: Option<Json>,
                             evidence: Option<Json>)
    ensures var r := CheckFinding(norm, id, claim, disposition, evidence);
      Blames(r, ActionScope) && !SaysUnexpectedField(r, ActionScope)
  {
    CheckedFindingIs(norm, id, claim, disposition, evidence);
    if evidence.Some? && evidence.value.Arr? { UrlsBlameUrls(norm, evidence.value.items, []); }
  }

  lemma {:induction false} FindingBlames(norm: Norm, raw: Json)
    ensures Blames(ReadFinding(norm, raw), ActionScope)
    ensures SaysUnexpectedField(ReadFinding(norm, raw), ActionScope) <==> raw.Obj? && RejectsFields(raw.fields, FindingFields)
  {
    if raw.Obj? {
      CheckedFindingBlames(norm, FieldOf(raw.fields, "id"), FieldOf(raw.fields, "claim"),
                           FieldOf(raw.fields, "disposition"), FieldOf(raw.fields, "evidenceUrls"));
    }
  }

  lemma {:induction false} FindingsBlame(norm: Norm, items: seq<Json>, before: seq<Finding>)
    ensures !SaysUnexpectedField(ParseFindings(norm, items, before), DecisionScope)
    decreases |items|
  {
    if items != [] {
      var r := ReadFinding(norm, items[0]);
      FindingBlames(norm, items[0]);
      if r.Ok? { FindingsBlame(norm, items[1..], before + [r.value]); }
    }
  }

  lemma {:induction false} CitationsBlame(norm: Norm, kind: DecisionKind, searches: seq<SearchAction>, fetches: seq<FetchAction>,
                       uncertainties: seq<string>, answer: Option<string>, evidence: Json, rawFindings: Json)
    ensures !SaysUnexpectedField(
      ParseCitations(norm, kind, searches, fetches, uncertainties, answer, evidence, rawFindings), DecisionScope)
  {
    if evidence.Arr? { UrlsBlameUrls(norm, evidence.items, []); }
    if rawFindings.Arr? { FindingsBlame(norm, rawFindings.items, []); }
  }

  lemma {:induction false} HeadBlames(kind: DecisionKind, searches: nat, fetches: nat, uncertainties: Json, answer: Json)
    ensures HeadError(kind, searches, fetches, uncertainties, answer) != Some(Error(DecisionScope, UnexpectedField))
  {
  }

  lemma {:induction false} RestBlames(norm: Norm, kind: DecisionKind, searches: seq<SearchAction>, fetches: seq<FetchAction>,
                   uncertainties: Json, answer: Json, evidence: Json, rawFindings: Json)
    ensures !SaysUnexpectedField(
      ParseRest(norm, kind, searches, fetches, uncertainties, answer, evidence, rawFindings), DecisionScope)
  {
    RestIsHeadAndCitations(norm, kind, searches, fetches, uncertainties, answer, evidence, rawFindings);
    HeadBlames(kind, |searches|, |fetches|, uncertainties, answer);
    CitationsBlame(norm, kind, searches, fetches, UncertaintiesOf(uncertainties), FinalAnswerOf(kind, answer),
                   evidence, rawFindings);
  }

  lemma {:induction false} FieldsAreRest(norm: Norm, decision: Json, searchActions: seq<Json>, fetchActions: seq<Json>,
                      uncertainties: Json, answer: Json, evidence: Json, rawFindings: Json)
    ensures var r := ParseFields(norm, decision, Arr(searchActions), Arr(fetchActions),
                                 uncertainties, answer, evidence, rawFindings);
      var searches, fetches := ParseSearchActions(searchActions, []), ParseFetchActions(norm, fetchActions, []);
      || (r.Err? && (r.error.code == UnknownDecision || r.error.scope == ActionScope))
      || (searches.Err? && r == Err(searches.error))
      || (fetches.Err? && r == Err(fetches.error))
      || (KindOf(decision).Some? && searches.Ok? && fetches.Ok?
          && r == ParseRest(norm, KindOf(decision).value, searches.value, fetches.value,
                            uncertainties, answer, evidence, rawFindings))
  {
  }

  lemma {:induction false} FieldsBlame(norm: Norm, decision: Json, searchActions: Json, fetchActions: Json,
                    uncertainties: Json, answer: Json, evidence: Json, rawFindings: Json)
    ensures !SaysUnexpectedField(
      ParseFields(norm, decision, searchActions, fetchActions, uncertainties, answer, evidence, rawFindings), DecisionScope)
  {
    if searchActions.Arr? && fetchActions.Arr? {
      SearchesBlameActions(searchActions.items, []);
      FetchesBlameActions(norm, fetchActions.items, []);
      FieldsAreRest(norm, decision, searchActions.items, fetchActions.items, uncertainties, answer, evidence,
                    rawFindings);
      var searches, fetches := ParseSearchActions(searchActions.items, []), ParseFetchActions(norm, fetchActions.items, []);
      if KindOf(decision).Some? && searches.Ok? && fetches.Ok? {
        RestBlames(norm, KindOf(decision).value, searches.value, fetches.value, uncertainties, answer, evidence,
                   rawFindings);
      }
    }
  }

  /** An unexpected field of the decision is complained about exactly when the first one has a name. */
  lemma {:induction false} UnexpectedFieldIff(norm: Norm, value: Json)
    ensures SaysUnexpectedField(Parse(norm, value), DecisionScope) <==>
      value.Obj? && FirstUnexpectedHasName(value.fields, TopLevelFields)
  {
    if value.Obj? {
      var input := value.fields;
      RejectsFieldsIff(input, TopLevelFields);
      if HasAllFields(input) {
        FieldsBlame(norm, FieldOf(input, "decision").value, FieldOf(input, "searchActions").value,
                    FieldOf(input, "fetchActions").value, FieldOf(input, "uncertainties").value,
                    FieldOf(input, "finalAnswer").value, FieldOf(input, "evidenceUrls").value,
                    FieldOf(input, "findings").value);
      }
    }
  }

  lemma {:induction false} SearchCheckIsNotUnexpected(query: Option<Json>, retry: Option<Json>)
    ensures !SaysUnexpectedField(CheckSearch(query, retry), ActionScope)
  {
  }

  lemma {:induction false} FetchCheckIsNotUnexpected(norm: Norm, url: Option<Json>, retry: Option<Json>)
    ensures !SaysUnexpectedField(CheckFetch(norm, url, retry), ActionScope)
  {
  }

  /** The same for a search action; an array counts as a record whose fields are its indices. */
  lemma {:induction false} UnexpectedSearchFieldIff(action: Json)
    ensures SaysUnexpectedField(ReadSearch(action), ActionScope) <==>
      RecordOf(action).Some? && FirstUnexpectedHasName(RecordOf(action).value, SearchFields)
  {
    if RecordOf(action).Some? {
      var fields := RecordOf(action).value;
      RejectsFieldsIff(fields, SearchFields);
      SearchCheckIsNotUnexpected(FieldOf(fields, "query"), FieldOf(fields, "retry"));
    }
  }

  lemma {:induction false} UnexpectedFetchFieldIff(norm: Norm, action: Json)
    ensures SaysUnexpectedField(ReadFetch(norm, action), ActionScope) <==>
      RecordOf(action).Some? && FirstUnexpectedHasName(RecordOf(action).value, FetchFields)
  {
    if RecordOf(action).Some? {
      var fields := RecordOf(action).value;
      RejectsFieldsIff(fields, FetchFields);
      FetchCheckIsNotUnexpected(norm, FieldOf(fields, "url"), FieldOf(fields, "retry"));
    }
  }

  lemma {:induction false} UnexpectedFindingFieldIff(norm: Norm, raw: Json)
    ensures SaysUnexpectedField(ReadFinding(norm, raw), ActionScope) <==>
      raw.Obj? && FirstUnexpectedHasName(raw.fields, FindingFields)
  {
    FindingBlames(norm, raw);
    if raw.Obj? { RejectsFieldsIff(raw.fields, FindingFields); }
  }

  // ---------------------------------------------------------------------------
  // What a field with the empty name hides
  // ---------------------------------------------------------------------------

  lemma {:induction false} FieldAmongExpected(fields: Fields, allowed: seq<string>, name: string)
    requires name in allowed
    ensures FieldOf(Expected(fields, allowed), name) == FieldOf(fields, name)
  {
    if fields != [] {
      FieldAmongExpected(fields[1..], allowed, name);
      if fields[0].0 in allowed { assert Expected(fields, allowed)[1..] == Expected(fields[1..], allowed); }
    }
  }

  lemma {:induction false} ExpectedPass(fields: Fields, allowed: seq<string>)
    ensures FirstUnexpected(Expected(fields, allowed), allowed) == None
  {
    if fields != [] {
      ExpectedPass(fields[1..], allowed);
      if fields[0].0 in allowed { assert Expected(fields, allowed)[1..] == Expected(fields[1..], allowed); }
    }
  }

  /** Two lists of fields that pass the check and agree on the allowed names. */
  ghost predicate Alike(all: Fields, kept: Fields, allowed: seq<string>) {
    && !RejectsFields(all, allowed) && !RejectsFields(kept, allowed)
    && forall name :: name in allowed ==> FieldOf(all, name) == FieldOf(kept, name)
  }

  /** A field with the empty name in front lets all fields pass, and changes no expected one. */
  lemma {:induction false} EmptyNameHides(junk: Json, fields: Fields, allowed: seq<string>)
    requires "" !in allowed
    ensures Alike([("", junk)] + fields, Expected(fields, allowed), allowed)
  {
    var all := [("", junk)] + fields;
    ExpectedPass(fields, allowed);
    assert all[0] == ("", junk) && all[1..] == fields;
    forall name | name in allowed ensures FieldOf(all, name) == FieldOf(Expected(fields, allowed), name) {
      FieldAmongExpected(fields, allowed, name);
    }
  }

  lemma {:induction false} EmptyNamePasses(junk: Json, fields: Fields, allowed: seq<string>)
    requires "" !in allowed && !RejectsFields(fields, allowed)
    ensures Alike([("", junk)] + fields, fields, allowed)
  {
    var all := [("", junk)] + fields;
    assert all[0] == ("", junk) && all[1..] == fields;
    forall name | name in allowed ensures FieldOf(all, name) == FieldOf(fields, name) {}
  }

  lemma {:induction false} AlikeAt(all: Fields, kept: Fields, allowed: seq<string>, k: nat)
    requires Alike(all, kept, allowed) && k < |allowed|
    ensures FieldOf(all, allowed[k]) == FieldOf(kept, allowed[k])
  {
  }

  lemma {:induction false} DecisionReads(norm: Norm, input: Fields)
    requires !RejectsFields(input, TopLevelFields)
    ensures Parse(norm, Obj(input)) == ParseInput(norm, input)
  {
  }

  lemma {:induction false} SameDecision(norm: Norm, all: Fields, kept: Fields)
    requires FieldOf(all, "decision") == FieldOf(kept, "decision")
    requires FieldOf(all, "searchActions") == FieldOf(kept, "searchActions")
    requires FieldOf(all, "fetchActions") == FieldOf(kept, "fetchActions")
    requires FieldOf(all, "uncertainties") == FieldOf(kept, "uncertainties")
    requires FieldOf(all, "finalAnswer") == FieldOf(kept, "finalAnswer")
    requires FieldOf(all, "evidenceUrls") == FieldOf(kept, "evidenceUrls")
    requires FieldOf(all, "findings") == FieldOf(kept, "findings")
    ensures ParseInput(norm, all) == ParseInput(norm, kept)
  {
  }

  lemma {:induction false} AlikeDecisions(norm: Norm, all: Fields, kept: Fields)
    requires Alike(all, kept, TopLevelFields)
    ensures Parse(norm, Obj(all)) == Parse(norm, Obj(kept))
  {
    forall k | 0 <= k < 7 ensures FieldOf(all, TopLevelFields[k]) == FieldOf(kept, TopLevelFields[k]) {
      AlikeAt(all, kept, TopLevelFields, k);
    }
    assert TopLevelFields[0] == "decision" && TopLevelFields[1] == "searchActions" && TopLevelFields[2] == "fetchActions"
      && TopLevelFields[3] == "uncertainties" && TopLevelFields[4] == "finalAnswer"
      && TopLevelFields[5] == "evidenceUrls" && TopLevelFields[6] == "findings";
    DecisionReads(norm, all);
    DecisionReads(norm, kept);
    SameDecision(norm, all, kept);
  }

  lemma {:induction false} SearchReads(fields: Fields)
    requires !RejectsFields(fields, SearchFields)
    ensures ReadSearch(Obj(fields)) == CheckSearch(FieldOf(fields, "query"), FieldOf(fields, "retry"))
  {
    assert RecordOf(Obj(fields)) == Some(fields);
  }

  lemma {:induction false} AlikeSearches(all: Fields, kept: Fields)
    requires Alike(all, kept, SearchFields)
    ensures ReadSearch(Obj(all)) == ReadSearch(Obj(kept))
  {
    AlikeAt(all, kept, SearchFields, 0);
    AlikeAt(all, kept, SearchFields, 1);
    SearchReads(all);
    SearchReads(kept);
  }

  lemma {:induction false} FetchReads(norm: Norm, fields: Fields)
    requires !RejectsFields(fields, FetchFields)
    ensures ReadFetch(norm, Obj(fields)) == CheckFetch(norm, FieldOf(fields, "url"), FieldOf(fields, "retry"))
  {
    assert RecordOf(Obj(fields)) == Some(fields);
  }

  lemma {:induction false} AlikeFetches(norm: Norm, all: Fields, kept: Fields)
    requires Alike(all, kept, FetchFields)
    ensures ReadFetch(norm, Obj(all)) == ReadFetch(norm, Obj(kept))
  {
    AlikeAt(all, kept, FetchFields, 0);
    AlikeAt(all, kept, FetchFields, 1);
    FetchReads(norm, all);
    FetchReads(norm, kept);
  }

  lemma {:induction false} FindingReads(norm: Norm, fields: Fields)
    requires !RejectsFields(fields, FindingFields)
    ensures ReadFinding(norm, Obj(fields)) ==
      CheckFinding(norm, FieldOf(fields, "id"), FieldOf(fields, "claim"),
                   FieldOf(fields, "disposition"), FieldOf(fields, "evidenceUrls"))
  {
  }

  lemma {:induction false} AlikeFindings(norm: Norm, all: Fields, kept: Fields)
    requires Alike(all, kept, FindingFields)
    ensures ReadFinding(norm, Obj(all)) == ReadFinding(norm, Obj(kept))
  {
    AlikeAt(all, kept, FindingFields, 0);
    AlikeAt(all, kept, FindingFields, 1);
    AlikeAt(all, kept, FindingFields, 2);
    AlikeAt(all, kept, FindingFields, 3);
    FindingReads(norm, all);
    FindingReads(norm, kept);
  }

  /** Behind a field with the empty name, the unexpected fields of a decision are read as if they were not there. */
  lemma {:induction false} EmptyNameHidesTopLevelFields(norm: Norm, junk: Json, fields: Fields)
    ensures Parse(norm, Obj([("", junk)] + fields)) == Parse(norm, Obj(Expected(fields, TopLevelFields)))
    ensures !RejectsFields(fields, TopLevelFields) ==> Parse(norm, Obj([("", junk)] + fields)) == Parse(norm, Obj(fields))
  {
    EmptyNameHides(junk, fields, TopLevelFields);
    AlikeDecisions(norm, [("", junk)] + fields, Expected(fields, TopLevelFields));
    if !RejectsFields(fields, TopLevelFields) {
      EmptyNamePasses(junk, fields, TopLevelFields);
      AlikeDecisions(norm, [("", junk)] + fields, fields);
    }
  }

  /** The same in a search action. */
  lemma {:induction false} EmptyNameHidesSearchFields(junk: Json, fields: Fields)
    ensures ReadSearch(Obj([("", junk)] + fields)) == ReadSearch(Obj(Expected(fields, SearchFields)))
  {
    EmptyNameHides(junk, fields, SearchFields);
    AlikeSearches([("", junk)] + fields, Expected(fields, SearchFields));
  }

  /** The same in a fetch action. */
  lemma {:induction false} EmptyNameHidesFetchFields(norm: Norm, junk: Json, fields: Fields)
    ensures ReadFetch(norm, Obj([("", junk)] + fields)) == ReadFetch(norm, Obj(Expected(fields, FetchFields)))
  {
    EmptyNameHides(junk, fields, FetchFields);
    AlikeFetches(norm, [("", junk)] + fields, Expected(fields, FetchFields));
  }

  /** The same in a finding. */
  lemma {:induction false} EmptyNameHidesFindingFields(norm: Norm, junk: Json, fields: Fields)
    ensures ReadFinding(norm, Obj([("", junk)] + fields)) == ReadFinding(norm, Obj(Expected(fields, FindingFields)))
  {
    EmptyNameHides(junk, fields, FindingFields);
    AlikeFindings(norm, [("", junk)] + fields, Expected(fields, FindingFields));
  }

  /** An array in the place of an action: rejected for its first entry or, when empty, for what it lacks. */
  lemma {:induction false} ArrayIsNoAction(norm: Norm, items: seq<Json>)
    ensures var code := if items == [] then InvalidSearchAction else UnexpectedField;
      ReadSearch(Arr(items)) == Err(Error(ActionScope, code))
    ensures var code := if items == [] then InvalidFetchAction else UnexpectedField;
      ReadFetch(norm, Arr(items)) == Err(Error(ActionScope, code))
  {
    if items != [] {
      var fields := RecordOf(Arr(items)).value;
      assert fields[0].0 == "0" && |SearchFields[0]| == 5 && |FetchFields[0]| == 3 && |FetchFields[1]| == 5;
      assert fields[0].0 !in SearchFields && fields[0].0 !in FetchFields;
    }
  }
}
