/**
 What the report says of a run: its counts, the answer status for each way a run ends, and
 what that means for runs that the loop did not finish.
 */
module ReportOutcomes {
  import opened Wrappers
  import opened JsText
  import opened Permutations
  import opened DecisionProtocol
  import opened Citations
  import opened AgentLoop
  import opened GenericReport

  // ---------------------------------------------------------------------------
  // The counts
  // ---------------------------------------------------------------------------

  function HasOutcome(outcome: ToolOutcome): Page -> bool {
    (page: Page) => page.outcome == outcome
  }

  function HasDisposition(disposition: Disposition): Finding -> bool {
    (finding: Finding) => finding.disposition == disposition
  }

  lemma {:induction false} LastPage(pages: seq<Page>, outcome: ToolOutcome)
    requires pages != []
    ensures var n := |pages| - 1;
      PagesWith(pages, outcome) == PagesWith(pages[..n], outcome) + if pages[n].outcome == outcome then 1 else 0
    decreases |pages|
  {
    var n := |pages| - 1;
    if n > 0 {
      LastPage(pages[1..], outcome);
      assert pages[1..][..n - 1] == pages[..n][1..];
    }
  }

  lemma {:induction false} PagesAreCounted(pages: seq<Page>, outcome: ToolOutcome)
    ensures PagesWith(pages, outcome) == |Places(HasOutcome(outcome), pages)|
    decreases |pages|
  {
    if pages == [] {
      assert Places(HasOutcome(outcome), pages) == {};
    } else {
      PagesAreCounted(pages[..|pages| - 1], outcome);
      LastPage(pages, outcome);
      PlacesNext(HasOutcome(outcome), pages);
    }
  }

  lemma {:induction false} LastFinding(findings: seq<Finding>, disposition: Disposition)
    requires findings != []
    ensures var n := |findings| - 1;
      FindingsWith(findings, disposition) ==
        FindingsWith(findings[..n], disposition) + if findings[n].disposition == disposition then 1 else 0
    decreases |findings|
  {
    var n := |findings| - 1;
    if n > 0 {
      LastFinding(findings[1..], disposition);
      assert findings[1..][..n - 1] == findings[..n][1..];
    }
  }

  lemma {:induction false} FindingsAreCounted(findings: seq<Finding>, disposition: Disposition)
    ensures FindingsWith(findings, disposition) == |Places(HasDisposition(disposition), findings)|
    decreases |findings|
  {
    if findings == [] {
      assert Places(HasDisposition(disposition), findings) == {};
    } else {
      FindingsAreCounted(findings[..|findings| - 1], disposition);
      LastFinding(findings, disposition);
      PlacesNext(HasDisposition(disposition), findings);
    }
  }

  /** The counts of the report are those of the pages and findings it is made of. */
  lemma {:induction false} ReportCounts(options: Options, canon: Canon, status: RunStatus, result: AgentResult)
    ensures var r := BuildGenericReport(options, canon, status, result);
      var pages, findings := result.state.fetchedPages, result.decision.findings;
      && r.iterations == result.state.currentIteration && r.searchResultCount == |result.state.searchResults|
      && r.fetchedPageCount == |pages| && r.findingCount == |findings|
      && r.successfulFetchCount == |Places(HasOutcome(SuccessWithContent), pages)|
      && r.emptyFetchCount == |Places(HasOutcome(SuccessEmpty), pages)|
      && r.confirmedFindingCount == |Places(HasDisposition(Confirmed), findings)|
      && r.uncertainFindingCount == |Places(HasDisposition(Uncertain), findings)|
      && r.excludedFindingCount == |Places(HasDisposition(Excluded), findings)|
      && r.validatedEvidenceUrls == MatchedUrls(canon, result.decision.evidenceUrls, pages)
  {
    PagesAreCounted(result.state.fetchedPages, SuccessWithContent);
    PagesAreCounted(result.state.fetchedPages, SuccessEmpty);
    FindingsAreCounted(result.decision.findings, Confirmed);
    FindingsAreCounted(result.decision.findings, Uncertain);
    FindingsAreCounted(result.decision.findings, Excluded);
  }

  // ---------------------------------------------------------------------------
  // The answer status
  // ---------------------------------------------------------------------------

  /** The pages the report asks for: those of the options, else as many as results, else one. */
  function PagesAsked(o: Options): int {
    match o.minFetchedPages
    case Some(pages) => pages
    case None => ResultsAsked(o)
  }

  function ResultsAsked(o: Options): int {
    match o.targetResultCount
    case Some(results) => results
    case None => 1
  }

  /** Too few cited pages where evidence is required, or too few confirmed findings in target mode. */
  ghost predicate Lacks(options: Options, canon: Canon, result: AgentResult) {
    || (options.evidenceRequired
        && |MatchedUrls(canon, result.decision.evidenceUrls, result.state.fetchedPages)| < PagesAsked(options))
    || (options.mode == Some(TargetResults)
        && |Places(HasDisposition(Confirmed), result.decision.findings)| < ResultsAsked(options))
  }

  /** What is said of a run that lacks nothing. */
  predicate SaysOf(status: RunStatus, said: AnswerStatus, answered: bool) {
    match status
    case RunCompleted => said == if answered then AnswerCompleted else AnswerUnavailable
    case RunFailed => said == AnswerFailed
    case RunInterrupted => said == AnswerInterrupted
    case RunCancelled => said == AnswerInterrupted
    case RunOther => said == AnswerUnavailable
  }

  lemma {:induction false} StatusByCounts(options: Options, canon: Canon, status: RunStatus, result: AgentResult, cited: nat,
                                          confirmed: nat)
    requires cited == |MatchedUrls(canon, result.decision.evidenceUrls, result.state.fetchedPages)|
    requires confirmed == FindingsWith(result.decision.findings, Confirmed)
    ensures var said := BuildGenericReport(options, canon, status, result).answerStatus;
      var blocked := (options.evidenceRequired && cited < PagesAsked(options))
                     || (options.mode == Some(TargetResults) && confirmed < ResultsAsked(options));
      && (said == BlockedByEvidence <==> blocked)
      && (!blocked ==> SaysOf(status, said, HasAnswer(result)))
  {
  }

  /**
   A result that lacks evidence or findings is reported as blocked however the run ended.
   Any other failed run is reported as failed, an interrupted or cancelled one as
   interrupted, and a completed one as completed when it has an answer.
   */
  lemma {:induction false} AnswerStatusMeans(options: Options, canon: Canon, status: RunStatus, result: AgentResult)
    ensures var said := BuildGenericReport(options, canon, status, result).answerStatus;
      && (said == BlockedByEvidence <==> Lacks(options, canon, result))
      && (!Lacks(options, canon, result) ==> SaysOf(status, said, HasAnswer(result)))
  {
    var cited := |MatchedUrls(canon, result.decision.evidenceUrls, result.state.fetchedPages)|;
    FindingsAreCounted(result.decision.findings, Confirmed);
    StatusByCounts(options, canon, status, result, cited, |Places(HasDisposition(Confirmed), result.decision.findings)|);
  }

  // ---------------------------------------------------------------------------
  // Runs that end without a finish
  // ---------------------------------------------------------------------------

  predicate Bare(d: Decision) {
    d.kind != Finish && d.findings == [] && d.evidenceUrls == []
  }

  ghost predicate ParsesBare(c: Config) {
    forall value :: c.parse(value).Ok? && c.parse(value).value.kind != Finish ==> Bare(c.parse(value).value)
  }

  lemma {:induction false} ParserParsesBare(c: Config, norm: Norm)
    requires IsUrlNorm(norm) && forall value :: c.parse(value) == Parse(norm, value)
    ensures ParsesBare(c)
  {
    forall value | c.parse(value).Ok? && c.parse(value).value.kind != Finish ensures Bare(c.parse(value).value) {
      AcceptedIsWellFormed(norm, value);
    }
  }

  lemma {:induction false} StepStaysBare(c: Config, loop: Loop, turn: Turn)
    requires ParsesBare(c) && Bare(loop.lastDecision)
    ensures var out := Step(c, loop, turn);
      && (out.Continue? ==> Bare(out.loop.lastDecision))
      && (out.Return? ==> Bare(out.result.decision) || out.result.decision.kind == Finish)
  {
  }

  lemma {:induction false} LastDecisionIsBare(c: Config, env: Environment, n: nat)
    requires ParsesBare(c) && Before(c, env, n).Some?
    ensures Bare(Before(c, env, n).value.lastDecision)
  {
    if n > 0 {
      LastDecisionIsBare(c, env, n - 1);
      StepStaysBare(c, Before(c, env, n - 1).value, env(n - 1));
    }
  }

  lemma {:induction false} ResultIsBare(c: Config, env: Environment)
    requires ParsesBare(c)
    ensures Bare(Run(c, env).decision) || Run(c, env).decision.kind == Finish
  {
    var n, loop := RunEndsFrom(c, env, 0, InitialLoop());
    LastDecisionIsBare(c, env, n);
    StepStaysBare(c, loop, env(n));
  }

  lemma {:induction false} NothingCited(canon: Canon, pages: seq<Page>)
    ensures MatchedUrls(canon, [], pages) == []
  {
  }

  lemma {:induction false} BareLacks(options: Options, canon: Canon, result: AgentResult)
    requires ValidOptions(options) && Bare(result.decision)
    ensures Lacks(options, canon, result) <==> options.evidenceRequired || options.mode == Some(TargetResults)
  {
    NothingCited(canon, result.state.fetchedPages);
    assert Places(HasDisposition(Confirmed), []) == {};
  }

  /**
   A run whose last decision is not a finish is reported as blocked exactly when its task
   requires evidence or a number of results, and otherwise as its status says.
   */
  lemma {:induction false} UnfinishedReport(c: Config, norm: Norm, env: Environment, status: RunStatus)
    requires ValidOptions(c.options) && IsUrlNorm(norm) && forall value :: c.parse(value) == Parse(norm, value)
    requires Run(c, env).decision.kind != Finish
    ensures Run(c, env).status != Finished
    ensures var said := BuildGenericReport(c.options, c.canon, status, Run(c, env)).answerStatus;
      if c.options.evidenceRequired || c.options.mode == Some(TargetResults) then said == BlockedByEvidence
      else SaysOf(status, said, HasAnswer(Run(c, env)))
  {
    ParserParsesBare(c, norm);
    ResultIsBare(c, env);
    BareLacks(c.options, c.canon, Run(c, env));
    AnswerStatusMeans(c.options, c.canon, status, Run(c, env));
    if Run(c, env).status == Finished {
      CompletedIsSound(c, env);
    }
  }
}
