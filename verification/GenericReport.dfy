/** The report recomputes the completion gate from the result alone; the two agree. */
module GenericReport {
  import opened Wrappers
  import opened JsText
  import opened DecisionProtocol
  import opened Citations
  import opened AgentLoop

  datatype RunStatus = RunCompleted | RunInterrupted | RunFailed | RunCancelled | RunOther

  datatype AnswerStatus = AnswerCompleted | AnswerUnavailable | BlockedByEvidence | AnswerInterrupted | AnswerFailed

  datatype Report = Report(
    iterations: nat, searchResultCount: nat, fetchedPageCount: nat, successfulFetchCount: nat, emptyFetchCount: nat,
    validatedEvidenceUrls: seq<string>,
    findingCount: nat, confirmedFindingCount: nat, uncertainFindingCount: nat, excludedFindingCount: nat,
    answerStatus: AnswerStatus)

  function PagesWith(pages: seq<Page>, outcome: ToolOutcome): nat {
    if pages == [] then 0 else (if pages[0].outcome == outcome then 1 else 0) + PagesWith(pages[1..], outcome)
  }

  function FindingsWith(findings: seq<Finding>, disposition: Disposition): nat {
    if findings == [] then 0
    else (if findings[0].disposition == disposition then 1 else 0) + FindingsWith(findings[1..], disposition)
  }

  function RequiredEvidence(o: Options): int {
    Or(o.minFetchedPages, Or(o.targetResultCount, 1))
  }

  predicate HasAnswer(result: AgentResult) {
    result.state.finalAnswer.Some? && |Trim(result.state.finalAnswer.value)| > 0
  }

  function BuildGenericReport(options: Options, canon: Canon, status: RunStatus, result: AgentResult): Report {
    var validated := MatchedUrls(canon, result.decision.evidenceUrls, result.state.fetchedPages);
    var findings := result.decision.findings;
    var confirmed := FindingsWith(findings, Confirmed);
    var evidenceBlocked := options.evidenceRequired && |validated| < RequiredEvidence(options);
    var findingsBlocked := options.mode == Some(TargetResults) && confirmed < Or(options.targetResultCount, 1);
    var answerStatus :=
      if evidenceBlocked || findingsBlocked then BlockedByEvidence
      else if status == RunCompleted && HasAnswer(result) then AnswerCompleted
      else if status == RunFailed then AnswerFailed
      else if status == RunInterrupted || status == RunCancelled then AnswerInterrupted
      else AnswerUnavailable;
    Report(result.state.currentIteration, |result.state.searchResults|, |result.state.fetchedPages|,
           PagesWith(result.state.fetchedPages, SuccessWithContent), PagesWith(result.state.fetchedPages, SuccessEmpty),
           validated, |findings|, confirmed, FindingsWith(findings, Uncertain), FindingsWith(findings, Excluded),
           answerStatus)
  }

  lemma {:induction false} ValidatedAreConfirmed(c: Config, findings: seq<Finding>, pages: seq<Page>)
    ensures |ValidatedFindings(c, findings, pages)| <= FindingsWith(findings, Confirmed)
  {
    if findings != [] {
      ValidatedAreConfirmed(c, findings[1..], pages);
    }
  }

  lemma {:induction false} DispositionsAddUp(findings: seq<Finding>)
    ensures |findings| ==
      FindingsWith(findings, Confirmed) + FindingsWith(findings, Uncertain) + FindingsWith(findings, Excluded)
  {
    if findings != [] {
      DispositionsAddUp(findings[1..]);
    }
  }

  lemma {:induction false} PagesAreCountedOnce(pages: seq<Page>)
    ensures PagesWith(pages, SuccessWithContent) + PagesWith(pages, SuccessEmpty) <= |pages|
  {
    if pages != [] {
      PagesAreCountedOnce(pages[1..]);
    }
  }

  /** Every finding is counted under exactly one disposition and every page under at most one outcome. */
  lemma {:induction false} ReportCountsAddUp(options: Options, canon: Canon, status: RunStatus, result: AgentResult)
    ensures var report := BuildGenericReport(options, canon, status, result);
      && report.findingCount == report.confirmedFindingCount + report.uncertainFindingCount + report.excludedFindingCount
      && report.successfulFetchCount + report.emptyFetchCount <= report.fetchedPageCount
  {
    DispositionsAddUp(result.decision.findings);
    PagesAreCountedOnce(result.state.fetchedPages);
  }

  /** A result that has what the options ask for is not blocked. */
  lemma {:induction false} EnoughIsNotBlocked(options: Options, canon: Canon, result: AgentResult)
    requires ValidOptions(options)
    requires options.evidenceRequired ==>
      |MatchedUrls(canon, result.decision.evidenceUrls, result.state.fetchedPages)| >= MinFetched(options)
    requires options.mode == Some(TargetResults) ==>
      FindingsWith(result.decision.findings, Confirmed) >= TargetCount(options)
    ensures BuildGenericReport(options, canon, RunCompleted, result).answerStatus ==
      if HasAnswer(result) then AnswerCompleted else AnswerUnavailable
  {
  }

  /**
   The report of a run that the loop completed never says that evidence is missing, and
   says that the answer is complete exactly when the normalised answer is not blank.
   */
  lemma {:induction false} ReportAgreesWithLoop(c: Config, env: Environment)
    requires ValidOptions(c.options) && Run(c, env).status == Finished
    ensures var r := Run(c, env);
      var said := BuildGenericReport(c.options, c.canon, RunCompleted, r).answerStatus;
      if HasAnswer(r) then said == AnswerCompleted else said == AnswerUnavailable
  {
    CompletedIsSound(c, env);
    var r := Run(c, env);
    ValidatedAreConfirmed(c, r.decision.findings, r.state.fetchedPages);
    EnoughIsNotBlocked(c.options, c.canon, r);
  }
}
