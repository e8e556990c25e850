/**
 `parseAgentDecision` from the JSON value on: the checks in their order, with the code
 and scope of the first one that fails, and the normalisation of what is accepted.

 Parsing a URL, accepting http and https only and serialising it again is the function
 `norm`; it is a parameter.
 */
module DecisionProtocol {
  import opened Wrappers
  import opened JsText

  /** A value as `JSON.parse` returns it; the fields of an object in their order. */
  datatype Json =
    | Null
    | Bool(b: bool)
    | Num(n: real)
    | Str(s: string)
    | Arr(items: seq<Json>)
    | Obj(fields: seq<(string, Json)>)

  datatype DecisionKind = Search | Fetch | Review | Finish

  datatype Disposition = Confirmed | Uncertain | Excluded

  datatype SearchAction = SearchAction(query: string, retry: bool)

  datatype FetchAction = FetchAction(url: string, retry: bool)

  datatype Finding = Finding(id: string, claim: string, disposition: Disposition, evidenceUrls: seq<string>)

  datatype Decision = Decision(
    kind: DecisionKind,
    searchActions: seq<SearchAction>,
    fetchActions: seq<FetchAction>,
    uncertainties: seq<string>,
    finalAnswer: Option<string>,
    evidenceUrls: seq<string>,
    findings: seq<Finding>)

  datatype Scope = JsonScope | DecisionScope | ActionScope

  datatype Code =
    | InvalidEnvelope | UnexpectedField | MissingField | UnknownDecision | InvalidActions
    | ActionLimitExceeded | InvalidSearchAction | InvalidRetry | DuplicateAction | InvalidFetchAction
    | InvalidUncertainties | MissingFinalAnswer | InvalidFinalAnswer
    | InvalidEvidenceUrls | InvalidEvidenceUrl | InvalidFindings | InvalidFinding
    | InvalidFindingDisposition | DuplicateFinding

  datatype Error = Error(scope: Scope, code: Code)

  type Norm = string -> Option<string>

  const MaxActions := 8
  const MaxEvidenceUrls := 100
  const MaxFindings := 100

  const TopLevelFields: seq<string> :=
    ["decision", "searchActions", "fetchActions", "uncertainties", "finalAnswer", "evidenceUrls", "findings"]
  const SearchFields: seq<string> := ["query", "retry"]
  const FetchFields: seq<string> := ["url", "retry"]
  const FindingFields: seq<string> := ["id", "claim", "disposition", "evidenceUrls"]

  // ---------------------------------------------------------------------------
  // Pieces
  // ---------------------------------------------------------------------------

  function NormalizeFinalAnswer(value: string): string {
    ReplaceAll(ReplaceAll(ReplaceAll(value, "\\r\\n", "\r\n"), "\\n", "\n"), "\\r", "\r")
  }

  function FieldOf(fields: seq<(string, Json)>, name: string): Option<Json> {
    if fields == [] then None
    else if fields[0].0 == name then Some(fields[0].1)
    else FieldOf(fields[1..], name)
  }

  /** The name of the first field outside `allowed`. */
  function FirstUnexpected(fields: seq<(string, Json)>, allowed: seq<string>): Option<string> {
    if fields == [] then None
    else if fields[0].0 !in allowed then Some(fields[0].0)
    else FirstUnexpected(fields[1..], allowed)
  }

  /** The name found is tested for truth, so a first unexpected field named "" passes. */
  predicate RejectsFields(fields: seq<(string, Json)>, allowed: seq<string>) {
    var name := FirstUnexpected(fields, allowed);
    name.Some? && name.value != ""
  }

  predicate HasField(fields: seq<(string, Json)>, name: string) {
    FieldOf(fields, name).Some?
  }

  /** The fields of an action: an array counts as an object with numbered fields. */
  function RecordOf(action: Json): Option<seq<(string, Json)>> {
    match action
    case Obj(fields) => Some(fields)
    case Arr(items) => if items == [] then Some([]) else Some([("0", items[0])])
    case _ => None
  }

  predicate IsStr(value: Option<Json>) {
    value.Some? && value.value.Str?
  }

  function CheckSearch(query: Option<Json>, retry: Option<Json>): (r: Result<SearchAction, Error>)
    ensures r.Ok? ==> Clean(r.value.query, 500)
  {
    if !IsStr(query) || Blank(query.value.s) || |query.value.s| > 500 then Err(Error(ActionScope, InvalidSearchAction))
    else if retry.None? then Err(Error(ActionScope, MissingField))
    else if !retry.value.Bool? then Err(Error(ActionScope, InvalidRetry))
    else
      TrimIsClean(query.value.s, 500);
      Ok(SearchAction(Trim(query.value.s), retry.value.b))
  }

  /** One search action on its own. */
  function ReadSearch(action: Json): (r: Result<SearchAction, Error>)
    ensures r.Ok? ==> Clean(r.value.query, 500)
  {
    match RecordOf(action)
    case None => Err(Error(ActionScope, InvalidSearchAction))
    case Some(fields) =>
      if RejectsFields(fields, SearchFields) then Err(Error(ActionScope, UnexpectedField))
      else CheckSearch(FieldOf(fields, "query"), FieldOf(fields, "retry"))
  }

  ghost predicate IsNormOfSome(norm: Norm, url: string) {
    exists raw :: norm(raw) == Some(url)
  }

  function CheckFetch(norm: Norm, url: Option<Json>, retry: Option<Json>): (r: Result<FetchAction, Error>)
    ensures r.Ok? ==> IsNormOfSome(norm, r.value.url)
  {
    if !IsStr(url) || Blank(url.value.s) || |url.value.s| > 2048 then Err(Error(ActionScope, InvalidFetchAction))
    else if retry.None? then Err(Error(ActionScope, MissingField))
    else if !retry.value.Bool? then Err(Error(ActionScope, InvalidRetry))
    else if norm(url.value.s).None? then Err(Error(ActionScope, InvalidFetchAction))
    else Ok(FetchAction(norm(url.value.s).value, retry.value.b))
  }

  /** One fetch action on its own. */
  function ReadFetch(norm: Norm, action: Json): (r: Result<FetchAction, Error>)
    ensures r.Ok? ==> IsNormOfSome(norm, r.value.url)
  {
    match RecordOf(action)
    case None => Err(Error(ActionScope, InvalidFetchAction))
    case Some(fields) =>
      if RejectsFields(fields, FetchFields) then Err(Error(ActionScope, UnexpectedField))
      else CheckFetch(norm, FieldOf(fields, "url"), FieldOf(fields, "retry"))
  }

  predicate HasQuery(actions: seq<SearchAction>, query: string) {
    exists k :: 0 <= k < |actions| && actions[k].query == query
  }

  predicate HasUrl(actions: seq<FetchAction>, url: string) {
    exists k :: 0 <= k < |actions| && actions[k].url == url
  }

  function ParseSearchActions(items: seq<Json>, before: seq<SearchAction>): Result<seq<SearchAction>, Error>
    decreases |items|
  {
    if items == [] then Ok(before)
    else match ReadSearch(items[0])
      case Err(error) => Err(error)
      case Ok(action) =>
        if HasQuery(before, action.query) then Err(Error(ActionScope, DuplicateAction))
        else ParseSearchActions(items[1..], before + [action])
  }

  function ParseFetchActions(norm: Norm, items: seq<Json>, before: seq<FetchAction>): Result<seq<FetchAction>, Error>
    decreases |items|
  {
    if items == [] then Ok(before)
    else match ReadFetch(norm, items[0])
      case Err(error) => Err(error)
      case Ok(action) =>
        if HasUrl(before, action.url) then Err(Error(ActionScope, DuplicateAction))
        else ParseFetchActions(norm, items[1..], before + [action])
  }

  /** A list of cited URLs: normalised, each kept once, in the order of first mention. */
  function ParseUrls(norm: Norm, items: seq<Json>, before: seq<string>): Result<seq<string>, Error>
    decreases |items|
  {
    if items == [] then Ok(before)
    else if !items[0].Str? || |items[0].s| > 2048 then Err(Error(ActionScope, InvalidEvidenceUrl))
    else match norm(items[0].s)
      case None => Err(Error(ActionScope, InvalidEvidenceUrl))
      case Some(url) => ParseUrls(norm, items[1..], if url in before then before else before + [url])
  }

  function DispositionOf(value: Option<Json>): Option<Disposition> {
    if value == Some(Str("confirmed")) then Some(Confirmed)
    else if value == Some(Str("uncertain")) then Some(Uncertain)
    else if value == Some(Str("excluded")) then Some(Excluded)
    else None
  }

  predicate BadText(value: Option<Json>, limit: nat) {
    !IsStr(value) || Blank(value.value.s) || |value.value.s| > limit
  }

  function CheckFinding(norm: Norm, id: Option<Json>, claim: Option<Json>, disposition: Option<Json>,
                        evidence: Option<Json>): Result<Finding, Error>
  {
    if BadText(id, 100) || BadText(claim, 2000) then Err(Error(ActionScope, InvalidFinding))
    else if DispositionOf(disposition).None? then Err(Error(ActionScope, InvalidFindingDisposition))
    else if evidence.None? || !evidence.value.Arr? || |evidence.value.items| > 20 then
      Err(Error(ActionScope, InvalidFinding))
    else match ParseUrls(norm, evidence.value.items, [])
      case Err(error) => Err(error)
      case Ok(urls) => Ok(Finding(Trim(id.value.s), Trim(claim.value.s), DispositionOf(disposition).value, urls))
  }

  /** One finding on its own. */
  function ReadFinding(norm: Norm, raw: Json): Result<Finding, Error> {
    if !raw.Obj? then Err(Error(ActionScope, InvalidFinding))
    else if RejectsFields(raw.fields, FindingFields) then Err(Error(ActionScope, UnexpectedField))
    else CheckFinding(norm, FieldOf(raw.fields, "id"), FieldOf(raw.fields, "claim"),
                      FieldOf(raw.fields, "disposition"), FieldOf(raw.fields, "evidenceUrls"))
  }

  predicate HasFinding(findings: seq<Finding>, id: string, claim: string) {
    exists k :: 0 <= k < |findings| && (findings[k].id == id || findings[k].claim == claim)
  }

  function ParseFindings(norm: Norm, items: seq<Json>, before: seq<Finding>): Result<seq<Finding>, Error>
    decreases |items|
  {
    if items == [] then Ok(before)
    else match ReadFinding(norm, items[0])
      case Err(error) => Err(error)
      case Ok(finding) =>
        if HasFinding(before, finding.id, finding.claim) then Err(Error(DecisionScope, DuplicateFinding))
        else ParseFindings(norm, items[1..], before + [finding])
  }

  function KindOf(value: Json): Option<DecisionKind> {
    if value == Str("search") then Some(Search)
    else if value == Str("fetch") then Some(Fetch)
    else if value == Str("review") then Some(Review)
    else if value == Str("finish") then Some(Finish)
    else None
  }

  /** All the citations of the findings, in the order of the findings. */
  function CitedUrls(findings: seq<Finding>): seq<string> {
    if findings == [] then [] else findings[0].evidenceUrls + CitedUrls(findings[1..])
  }

  /** The elements of `before` and then those of `urls` that are new, as a Set lists them. */
  function AddAll<T(==)>(before: seq<T>, urls: seq<T>): seq<T>
    decreases |urls|
  {
    if urls == [] then before
    else AddAll(if urls[0] in before then before else before + [urls[0]], urls[1..])
  }

  predicate ActionsFit(kind: DecisionKind, searches: nat, fetches: nat) {
    match kind
    case Search => searches > 0 && fetches == 0
    case Fetch => fetches > 0 && searches == 0
    case _ => searches == 0 && fetches == 0
  }

  predicate BadUncertainties(value: Json) {
    !value.Arr? || |value.items| > 16 ||
    exists k :: 0 <= k < |value.items| && (!value.items[k].Str? || |value.items[k].s| > 500)
  }

  function Strings(items: seq<Json>): (r: seq<string>)
    requires forall k :: 0 <= k < |items| ==> items[k].Str?
    ensures |r| == |items| && forall k :: 0 <= k < |items| ==> r[k] == items[k].s
  {
    seq(|items|, k requires 0 <= k < |items| => items[k].s)
  }

  // ---------------------------------------------------------------------------
  // The parser
  // ---------------------------------------------------------------------------

  /** The last part of the parser: the cited URLs and the findings. */
  function ParseCitations(norm: Norm, kind: DecisionKind, searches: seq<SearchAction>, fetches: seq<FetchAction>,
                          uncertainties: seq<string>, answer: Option<string>, evidence: Json, rawFindings: Json)
    : Result<Decision, Error>
  {
    if !evidence.Arr? || |evidence.items| > MaxEvidenceUrls then Err(Error(ActionScope, InvalidEvidenceUrls))
    else match ParseUrls(norm, evidence.items, [])
      case Err(error) => Err(error)
      case Ok(urls) =>
        if kind != Finish && |urls| > 0 then Err(Error(DecisionScope, InvalidEvidenceUrls))
        else if !rawFindings.Arr? || |rawFindings.items| > MaxFindings then Err(Error(ActionScope, InvalidFindings))
        else match ParseFindings(norm, rawFindings.items, [])
          case Err(error) => Err(error)
          case Ok(findings) =>
            if kind != Finish && |findings| > 0 then Err(Error(DecisionScope, InvalidFindings))
            else
              Ok(Decision(kind, searches, fetches, uncertainties, answer,
                          if kind == Finish then AddAll([], CitedUrls(findings)) else [], findings))
  }

  /** What is wrong with the actions as a whole, the uncertainties or the final answer. */
  function HeadError(kind: DecisionKind, searches: nat, fetches: nat, uncertainties: Json,
                     answer: Json): (r: Option<Error>)
    ensures r.None? ==> !BadUncertainties(uncertainties) && (kind == Finish ==> answer.Str?)
  {
    if !ActionsFit(kind, searches, fetches) then Some(Error(DecisionScope, InvalidActions))
    else if BadUncertainties(uncertainties) then Some(Error(ActionScope, InvalidUncertainties))
    else if kind == Finish && (!answer.Str? || Blank(answer.s)) then Some(Error(DecisionScope, MissingFinalAnswer))
    else if answer.Str? && |answer.s| > 12000 then Some(Error(DecisionScope, InvalidFinalAnswer))
    else if kind != Finish && answer != Null then Some(Error(DecisionScope, InvalidFinalAnswer))
    else None
  }

  function UncertaintiesOf(value: Json): seq<string> {
    if BadUncertainties(value) then [] else Strings(value.items)
  }

  function FinalAnswerOf(kind: DecisionKind, answer: Json): Option<string> {
    if kind == Finish && answer.Str? then Some(NormalizeFinalAnswer(answer.s)) else None
  }

  /** The parser once the actions are read. */
  function ParseRest(norm: Norm, kind: DecisionKind, searches: seq<SearchAction>, fetches: seq<FetchAction>,
                     uncertainties: Json, answer: Json, evidence: Json, rawFindings: Json): Result<Decision, Error>
  {
    match HeadError(kind, |searches|, |fetches|, uncertainties, answer)
    case Some(error) => Err(error)
    case None =>
      ParseCitations(norm, kind, searches, fetches, UncertaintiesOf(uncertainties), FinalAnswerOf(kind, answer),
                     evidence, rawFindings)
  }

  lemma {:induction false} RestIsHeadAndCitations(norm: Norm, kind: DecisionKind, searches: seq<SearchAction>, fetches: seq<FetchAction>,
                               uncertainties: Json, answer: Json, evidence: Json, rawFindings: Json)
    ensures var problem := HeadError(kind, |searches|, |fetches|, uncertainties, answer);
      ParseRest(norm, kind, searches, fetches, uncertainties, answer, evidence, rawFindings) ==
      if problem.Some? then Err(problem.value)
      else ParseCitations(norm, kind, searches, fetches, UncertaintiesOf(uncertainties), FinalAnswerOf(kind, answer),
                          evidence, rawFindings)
  {
  }

  predicate HasAllFields(input: seq<(string, Json)>) {
    && HasField(input, "decision") && HasField(input, "searchActions") && HasField(input, "fetchActions")
    && HasField(input, "uncertainties") && HasField(input, "finalAnswer")
    && HasField(input, "evidenceUrls") && HasField(input, "findings")
  }

  /** The parser once the seven fields are known to be there. */
  function ParseFields(norm: Norm, decision: Json, searchActions: Json, fetchActions: Json,
                       uncertainties: Json, answer: Json, evidence: Json, rawFindings: Json): Result<Decision, Error>
  {
    var kind := KindOf(decision);
    if kind.None? then Err(Error(DecisionScope, UnknownDecision))
    else if !searchActions.Arr? || !fetchActions.Arr? then Err(Error(ActionScope, InvalidActions))
    else if |searchActions.items| > MaxActions || |fetchActions.items| > MaxActions then
      Err(Error(ActionScope, ActionLimitExceeded))
    else match ParseSearchActions(searchActions.items, [])
      case Err(error) => Err(error)
      case Ok(searches) =>
        match ParseFetchActions(norm, fetchActions.items, [])
        case Err(error) => Err(error)
        case Ok(fetches) => ParseRest(norm, kind.value, searches, fetches, uncertainties, answer, evidence, rawFindings)
  }

  /** The parser once no field is unexpected. */
  function ParseInput(norm: Norm, input: seq<(string, Json)>): Result<Decision, Error> {
    if !HasAllFields(input) then Err(Error(DecisionScope, MissingField))
    else
      ParseFields(norm, FieldOf(input, "decision").value, FieldOf(input, "searchActions").value,
                  FieldOf(input, "fetchActions").value, FieldOf(input, "uncertainties").value,
                  FieldOf(input, "finalAnswer").value, FieldOf(input, "evidenceUrls").value,
                  FieldOf(input, "findings").value)
  }

  function Parse(norm: Norm, value: Json): Result<Decision, Error> {
    if !value.Obj? then Err(Error(JsonScope, InvalidEnvelope))
    else if RejectsFields(value.fields, TopLevelFields) then Err(Error(DecisionScope, UnexpectedField))
    else ParseInput(norm, value.fields)
  }

  // ---------------------------------------------------------------------------
  // Normalising the final answer
  // ---------------------------------------------------------------------------

  /** No `a` directly before a `b`. */
  predicate NoPair(s: string, a: char, b: char) {
    forall i :: 0 <= i < |s| - 1 ==> !(s[i] == a && s[i + 1] == b)
  }

  lemma {:induction false} ReplacePairHead(s: string, a: char, b: char, c: char)
    requires s != []
    ensures var r := ReplaceAll(s, [a, b], [c]); r != [] && (r[0] == c || r[0] == s[0])
  {
  }

  lemma {:induction false} ReplacePairRemoves(s: string, a: char, b: char, c: char)
    requires a != b && c != a && c != b
    ensures NoPair(ReplaceAll(s, [a, b], [c]), a, b)
  {
    if |s| >= 2 {
      if s[..2] == [a, b] {
        ReplacePairRemoves(s[2..], a, b, c);
      } else {
        ReplacePairRemoves(s[1..], a, b, c);
        ReplacePairHead(s[1..], a, b, c);
        assert s[..2] == [s[0], s[1]];
      }
    }
  }

  lemma {:induction false} NoPairDrop(s: string, a: char, b: char, n: nat)
    requires NoPair(s, a, b) && n <= |s|
    ensures NoPair(s[n..], a, b)
  {
    forall i | 0 <= i < |s[n..]| - 1 ensures !(s[n..][i] == a && s[n..][i + 1] == b) {
      assert s[n..][i] == s[n + i] && s[n..][i + 1] == s[n + i + 1];
    }
  }

  lemma {:induction false} ReplacePairKeeps(s: string, a: char, b: char, b1: char, c: char)
    requires c != a && c != b1 && NoPair(s, a, b1)
    ensures NoPair(ReplaceAll(s, [a, b], [c]), a, b1)
  {
    if |s| >= 2 {
      if s[..2] == [a, b] {
        NoPairDrop(s, a, b1, 2);
        ReplacePairKeeps(s[2..], a, b, b1, c);
      } else {
        NoPairDrop(s, a, b1, 1);
        ReplacePairKeeps(s[1..], a, b, b1, c);
        ReplacePairHead(s[1..], a, b, c);
      }
    }
  }

  lemma {:induction false} OccurrenceHasPair(s: string, pattern: string, i: int)
    requires |pattern| >= 2 && OccursAt(s, pattern, i)
    ensures 0 <= i < |s| - 1 && s[i] == pattern[0] && s[i + 1] == pattern[1]
  {
    var part := s[i..i + |pattern|];
    assert s[i] == part[0] && s[i + 1] == part[1];
  }

  lemma {:induction false} NoPairNoOccurrence(s: string, pattern: string, a: char, b: char)
    requires |pattern| >= 2 && pattern[0] == a && pattern[1] == b && NoPair(s, a, b)
    ensures !Occurs(s, pattern)
  {
    if i :| OccursAt(s, pattern, i) {
      OccurrenceHasPair(s, pattern, i);
      assert false;
    }
  }

  /** Nothing is left to decode after one pass. */
  lemma {:induction false} NormalizingIsIdempotent(value: string)
    ensures NormalizeFinalAnswer(NormalizeFinalAnswer(value)) == NormalizeFinalAnswer(value)
  {
    var r1 := ReplaceAll(value, "\\r\\n", "\r\n");
    var r2 := ReplaceAll(r1, "\\n", "\n");
    var r3 := ReplaceAll(r2, "\\r", "\r");
    assert "\\n" == ['\\', 'n'] && "\n" == ['\n'] && "\\r" == ['\\', 'r'] && "\r" == ['\r'];
    ReplacePairRemoves(r1, '\\', 'n', '\n');
    ReplacePairKeeps(r2, '\\', 'r', 'n', '\r');
    ReplacePairRemoves(r2, '\\', 'r', '\r');
    NoPairNoOccurrence(r3, "\\r\\n", '\\', 'r');
    NoPairNoOccurrence(r3, "\\n", '\\', 'n');
    NoPairNoOccurrence(r3, "\\r", '\\', 'r');
    ReplaceNothing(r3, "\\r\\n", "\r\n");
    ReplaceNothing(r3, "\\n", "\n");
    ReplaceNothing(r3, "\\r", "\r");
  }

  lemma {:induction false} NormalizingShrinks(value: string)
    ensures |NormalizeFinalAnswer(value)| <= |value|
  {
    var r1 := ReplaceAll(value, "\\r\\n", "\r\n");
    ReplaceShrinks(value, "\\r\\n", "\r\n");
    ReplaceShrinks(r1, "\\n", "\n");
    ReplaceShrinks(ReplaceAll(r1, "\\n", "\n"), "\\r", "\r");
  }

  // ---------------------------------------------------------------------------
  // What an accepted decision looks like
  // ---------------------------------------------------------------------------

  /** What is known of `new URL(raw).toString()`: its result parses to itself and is not blank. */
  ghost predicate IsUrlNorm(norm: Norm) {
    forall raw, url :: norm(raw) == Some(url) ==> norm(url) == Some(url) && !Blank(url)
  }

  predicate Normal(norm: Norm, url: string) {
    norm(url) == Some(url)
  }

  /** A text as the parser leaves it: trimmed, not blank and of limited length. */
  predicate Clean(text: string, limit: nat) {
    Trim(text) == text && text != [] && |text| <= limit
  }

  lemma {:induction false} TrimIsClean(raw: string, limit: nat)
    requires !Blank(raw) && |raw| <= limit
    ensures Clean(Trim(raw), limit)
  {
    TrimIsIdempotent(raw);
  }

  ghost predicate SearchesOk(actions: seq<SearchAction>) {
    && (forall i :: 0 <= i < |actions| ==> Clean(actions[i].query, 500))
    && (forall i, k :: 0 <= i < k < |actions| ==> actions[i].query != actions[k].query)
  }

  ghost predicate FetchesOk(norm: Norm, actions: seq<FetchAction>) {
    && (forall i :: 0 <= i < |actions| ==> Normal(norm, actions[i].url))
    && (forall i, k :: 0 <= i < k < |actions| ==> actions[i].url != actions[k].url)
  }

  ghost predicate UrlsOk(norm: Norm, urls: seq<string>) {
    && (forall i :: 0 <= i < |urls| ==> Normal(norm, urls[i]))
    && (forall i, k :: 0 <= i < k < |urls| ==> urls[i] != urls[k])
  }

  ghost predicate FindingOk(norm: Norm, f: Finding) {
    Clean(f.id, 100) && Clean(f.claim, 2000) && |f.evidenceUrls| <= 20 && UrlsOk(norm, f.evidenceUrls)
  }

  predicate FindingsDiffer(findings: seq<Finding>) {
    forall i, k :: 0 <= i < k < |findings| ==>
      findings[i].id != findings[k].id && findings[i].claim != findings[k].claim
  }

  ghost predicate FindingsOk(norm: Norm, findings: seq<Finding>) {
    FindingsDiffer(findings) && forall i :: 0 <= i < |findings| ==> FindingOk(norm, findings[i])
  }

  ghost predicate WellFormed(norm: Norm, d: Decision) {
    && SearchesOk(d.searchActions) && |d.searchActions| <= MaxActions
    && FetchesOk(norm, d.fetchActions) && |d.fetchActions| <= MaxActions
    && ActionsFit(d.kind, |d.searchActions|, |d.fetchActions|)
    && |d.uncertainties| <= 16 && (forall k :: 0 <= k < |d.uncertainties| ==> |d.uncertainties[k]| <= 500)
    && (d.kind == Finish <==> d.finalAnswer.Some?)
    && (d.kind == Finish ==>
          && |d.finalAnswer.value| <= 12000
          && NormalizeFinalAnswer(d.finalAnswer.value) == d.finalAnswer.value)
    && FindingsOk(norm, d.findings) && |d.findings| <= MaxFindings
    && (d.kind != Finish ==> d.findings == [])
    && d.evidenceUrls == AddAll([], CitedUrls(d.findings))
  }

  lemma {:induction false} AppendSearch(before: seq<SearchAction>, action: SearchAction)
    requires SearchesOk(before) && Clean(action.query, 500) && !HasQuery(before, action.query)
    ensures SearchesOk(before + [action])
  {
    forall i | 0 <= i < |before| ensures before[i].query != action.query {}
  }

  lemma {:induction false} AppendFetch(norm: Norm, before: seq<FetchAction>, action: FetchAction)
    requires FetchesOk(norm, before) && Normal(norm, action.url) && !HasUrl(before, action.url)
    ensures FetchesOk(norm, before + [action])
  {
    forall i | 0 <= i < |before| ensures before[i].url != action.url {}
  }

  lemma {:induction false} AppendDiffers(before: seq<Finding>, f: Finding)
    requires FindingsDiffer(before) && !HasFinding(before, f.id, f.claim)
    ensures FindingsDiffer(before + [f])
  {
    forall i | 0 <= i < |before| ensures before[i].id != f.id && before[i].claim != f.claim {}
  }

  lemma {:induction false} AppendFinding(norm: Norm, before: seq<Finding>, f: Finding)
    requires FindingsOk(norm, before) && FindingOk(norm, f) && !HasFinding(before, f.id, f.claim)
    ensures FindingsOk(norm, before + [f])
  {
    AppendDiffers(before, f);
  }

  lemma {:induction false} ParsedSearchesOk(items: seq<Json>, before: seq<SearchAction>)
    requires SearchesOk(before)
    ensures var r := ParseSearchActions(items, before);
      r.Ok? ==> SearchesOk(r.value) && |r.value| == |before| + |items|
    decreases |items|
  {
    if items != [] {
      var r := ReadSearch(items[0]);
      if r.Ok? && !HasQuery(before, r.value.query) {
        AppendSearch(before, r.value);
        ParsedSearchesOk(items[1..], before + [r.value]);
      }
    }
  }

  lemma {:induction false} ParsedFetchesOk(norm: Norm, items: seq<Json>, before: seq<FetchAction>)
    requires FetchesOk(norm, before) && IsUrlNorm(norm)
    ensures var r := ParseFetchActions(norm, items, before);
      r.Ok? ==> FetchesOk(norm, r.value) && |r.value| == |before| + |items|
    decreases |items|
  {
    if items != [] {
      var r := ReadFetch(norm, items[0]);
      if r.Ok? && !HasUrl(before, r.value.url) {
        AppendFetch(norm, before, r.value);
        ParsedFetchesOk(norm, items[1..], before + [r.value]);
      }
    }
  }

  lemma {:induction false} ParsedUrlsOk(norm: Norm, items: seq<Json>, before: seq<string>)
    requires UrlsOk(norm, before) && IsUrlNorm(norm)
    ensures var r := ParseUrls(norm, items, before);
      r.Ok? ==> UrlsOk(norm, r.value) && |r.value| <= |before| + |items|
    decreases |items|
  {
    if items != [] && items[0].Str? && norm(items[0].s).Some? {
      var url := norm(items[0].s).value;
      ParsedUrlsOk(norm, items[1..], if url in before then before else before + [url]);
    }
  }

  lemma {:induction false} ReadFindingIsOk(norm: Norm, raw: Json)
    requires IsUrlNorm(norm)
    ensures ReadFinding(norm, raw).Ok? ==> FindingOk(norm, ReadFinding(norm, raw).value)
  {
    if ReadFinding(norm, raw).Ok? {
      TrimIsClean(FieldOf(raw.fields, "id").value.s, 100);
      TrimIsClean(FieldOf(raw.fields, "claim").value.s, 2000);
      ParsedUrlsOk(norm, FieldOf(raw.fields, "evidenceUrls").value.items, []);
    }
  }

  lemma {:induction false} ParsedFindingsOk(norm: Norm, items: seq<Json>, before: seq<Finding>)
    requires FindingsOk(norm, before) && IsUrlNorm(norm)
    ensures var r := ParseFindings(norm, items, before);
      r.Ok? ==> FindingsOk(norm, r.value) && |r.value| == |before| + |items|
    decreases |items|
  {
    if items != [] {
      var r := ReadFinding(norm, items[0]);
      ReadFindingIsOk(norm, items[0]);
      if r.Ok? && !HasFinding(before, r.value.id, r.value.claim) {
        AppendFinding(norm, before, r.value);
        ParsedFindingsOk(norm, items[1..], before + [r.value]);
      }
    }
  }

  lemma {:induction false} ParsedRestOk(norm: Norm, kind: DecisionKind, searches: seq<SearchAction>, fetches: seq<FetchAction>,
                     uncertainties: Json, answer: Json, evidence: Json, rawFindings: Json)
    requires IsUrlNorm(norm)
    requires SearchesOk(searches) && |searches| <= MaxActions
    requires FetchesOk(norm, fetches) && |fetches| <= MaxActions
    ensures var r := ParseRest(norm, kind, searches, fetches, uncertainties, answer, evidence, rawFindings);
      r.Ok? ==> WellFormed(norm, r.value)
  {
    if ParseRest(norm, kind, searches, fetches, uncertainties, answer, evidence, rawFindings).Ok? {
      ParsedFindingsOk(norm, rawFindings.items, []);
      if answer.Str? {
        NormalizingIsIdempotent(answer.s);
        NormalizingShrinks(answer.s);
      }
    }
  }

  lemma {:induction false} ParsedFieldsOk(norm: Norm, decision: Json, searchActions: Json, fetchActions: Json,
                       uncertainties: Json, answer: Json, evidence: Json, rawFindings: Json)
    requires IsUrlNorm(norm)
    ensures var r := ParseFields(norm, decision, searchActions, fetchActions, uncertainties, answer, evidence, rawFindings);
      r.Ok? ==> WellFormed(norm, r.value)
  {
    if ParseFields(norm, decision, searchActions, fetchActions, uncertainties, answer, evidence, rawFindings).Ok? {
      ParsedSearchesOk(searchActions.items, []);
      ParsedFetchesOk(norm, fetchActions.items, []);
      ParsedRestOk(norm, KindOf(decision).value,
                   ParseSearchActions(searchActions.items, []).value, ParseFetchActions(norm, fetchActions.items, []).value,
                   uncertainties, answer, evidence, rawFindings);
    }
  }

  /** What the parser guarantees about every decision it accepts. */
  lemma {:induction false} AcceptedIsWellFormed(norm: Norm, value: Json)
    requires IsUrlNorm(norm) && Parse(norm, value).Ok?
    ensures WellFormed(norm, Parse(norm, value).value)
  {
    var input := value.fields;
    ParsedFieldsOk(norm, FieldOf(input, "decision").value, FieldOf(input, "searchActions").value,
                   FieldOf(input, "fetchActions").value, FieldOf(input, "uncertainties").value,
                   FieldOf(input, "finalAnswer").value, FieldOf(input, "evidenceUrls").value,
                   FieldOf(input, "findings").value);
  }
}
