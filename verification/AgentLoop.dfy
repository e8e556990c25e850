/**
 The research loop: one model call after another until a finish is accepted, an error
 ends the run or the calls are used up. The model, the tools and the abort signal are
 an arbitrary sequence of turns.
 */
module AgentLoop {
  import opened Wrappers
  import opened DecisionProtocol
  import opened Citations
  import opened CitationCounts

  // ---------------------------------------------------------------------------
  // Options
  // ---------------------------------------------------------------------------

  datatype Mode = TargetResults | Rounds

  datatype Options = Options(
    maxIterations: Option<int>,
    mode: Option<Mode>,
    targetResultCount: Option<int>,
    evidenceRequired: bool,
    minFetchedPages: Option<int>,
    maxSearchActionsPerTurn: Option<int>,
    maxFetchActionsPerTurn: Option<int>)

  predicate InRange(value: Option<int>, maximum: int) {
    value.Some? ==> 1 <= value.value <= maximum
  }

  /** What the validation of a research task accepts. */
  predicate ValidOptions(o: Options) {
    && InRange(o.maxIterations, 100) && InRange(o.targetResultCount, 100) && InRange(o.minFetchedPages, 100)
    && InRange(o.maxSearchActionsPerTurn, 8) && InRange(o.maxFetchActionsPerTurn, 8)
  }

  function Or(value: Option<int>, otherwise: int): int {
    if value.Some? then value.value else otherwise
  }

  function Clamp(value: int, maximum: int): int {
    if value < 1 then 1 else if value > maximum then maximum else value
  }

  function AtLeastOne(value: int): int {
    if value < 1 then 1 else value
  }

  function MaxIterations(o: Options): (r: int)
    ensures 1 <= r <= 100
  {
    Clamp(Or(o.maxIterations, 100), 100)
  }

  function MaxSearches(o: Options): int { Clamp(Or(o.maxSearchActionsPerTurn, 8), 8) }

  function MaxFetches(o: Options): int { Clamp(Or(o.maxFetchActionsPerTurn, 8), 8) }

  function TargetCount(o: Options): int { AtLeastOne(Or(o.targetResultCount, 1)) }

  function MinFetched(o: Options): int {
    AtLeastOne(Or(o.minFetchedPages, if o.evidenceRequired then TargetCount(o) else 1))
  }

  const MaxRecoveries := 2
  const MaxAttempts := 3

  function MaxCalls(o: Options): int {
    (MaxIterations(o) + 1) * MaxRecoveries
  }

  // ---------------------------------------------------------------------------
  // State and environment
  // ---------------------------------------------------------------------------

  datatype AbortReason = AbortTimeout | AbortCancelled

  datatype Reason =
    | Aborted(cause: AbortReason) | ModelTimeout | ProviderError | ProtocolFailure | IterationsUsed | CompletionNotReached

  datatype Note = Stated(text: string) | CompletionGap

  datatype Hit = Hit(url: string)

  datatype AgentState = AgentState(
    currentIteration: nat,
    decisions: seq<Decision>,
    searchResults: seq<Hit>,
    fetchedPages: seq<Page>,
    uncertainties: seq<Note>,
    finalAnswer: Option<string>,
    interrupted: Option<Reason>)

  datatype LoopError =
    | Rejected(code: Code) | InvalidJson | AdapterProtocolError | IncompleteResponse
    | FirstAttemptMarkedRetry | RetryRequired | RetryLimitExceeded
    | NoProgressReview | ActionBudgetExceeded | RoundLimitReached

  /** What a model call gives: an exception, or a completion whose text may not be JSON. */
  datatype Reply =
    | Threw(timedOut: bool)
    | Completed(protocolError: bool, cutOff: bool, text: Option<Json>)

  /**
   Everything one turn takes from outside. A search or fetch that yields None saw the
   signal aborted.
   */
  datatype Turn = Turn(
    abortedBefore: Option<AbortReason>,
    reply: Reply,
    abortedAfter: Option<AbortReason>,
    searches: nat -> Option<seq<Hit>>,
    fetches: nat -> Option<Page>,
    abortedDuring: AbortReason)

  type Environment = nat -> Turn

  /** The options with the decision parser and the canonical form of URLs. */
  datatype Config = Config(options: Options, parse: Json -> Result<Decision, Error>, canon: Canon)

  datatype Status = Finished | Interrupted | Failed

  datatype AgentResult = AgentResult(state: AgentState, decision: Decision, status: Status)

  datatype Loop = Loop(state: AgentState, lastDecision: Decision, protocolError: Option<LoopError>, recoveries: nat)

  datatype Outcome = Continue(loop: Loop) | Break | Return(result: AgentResult)

  function InitialLoop(): Loop {
    Loop(AgentState(0, [], [], [], [], None, None), Decision(Review, [], [], [], None, [], []), None, 0)
  }

  function Interrupt(state: AgentState, reason: Reason): AgentState {
    state.(interrupted := Some(reason))
  }

  // ---------------------------------------------------------------------------
  // Retry intent
  // ---------------------------------------------------------------------------

  /** One executed or proposed action: an exact query or URL and its retry mark. */
  datatype Attempt = Attempt(text: string, retry: bool)

  function SearchesOf(d: Decision): seq<Attempt> {
    seq(|d.searchActions|, k requires 0 <= k < |d.searchActions| =>
      Attempt(d.searchActions[k].query, d.searchActions[k].retry))
  }

  function FetchesOf(d: Decision): seq<Attempt> {
    seq(|d.fetchActions|, k requires 0 <= k < |d.fetchActions| => Attempt(d.fetchActions[k].url, d.fetchActions[k].retry))
  }

  function SearchHistory(decisions: seq<Decision>): seq<Attempt> {
    if decisions == [] then []
    else SearchHistory(decisions[..|decisions| - 1]) + SearchesOf(decisions[|decisions| - 1])
  }

  function FetchHistory(decisions: seq<Decision>): seq<Attempt> {
    if decisions == [] then []
    else FetchHistory(decisions[..|decisions| - 1]) + FetchesOf(decisions[|decisions| - 1])
  }

  function Count(history: seq<Attempt>, text: string): nat {
    if history == [] then 0
    else Count(history[..|history| - 1], text) + if history[|history| - 1].text == text then 1 else 0
  }

  /** The first complaint about the retry marks of `actions`, given what was executed before. */
  function RetryError(history: seq<Attempt>, actions: seq<Attempt>): Option<LoopError> {
    if actions == [] then None
    else
      var attempts := Count(history, actions[0].text);
      if attempts == 0 && actions[0].retry then Some(FirstAttemptMarkedRetry)
      else if attempts > 0 && !actions[0].retry then Some(RetryRequired)
      else if attempts >= MaxAttempts then Some(RetryLimitExceeded)
      else RetryError(history, actions[1..])
  }

  function ValidateRetryIntent(d: Decision, decisions: seq<Decision>): Option<LoopError> {
    var error := RetryError(SearchHistory(decisions), SearchesOf(d));
    if error.Some? then error else RetryError(FetchHistory(decisions), FetchesOf(d))
  }

  // ---------------------------------------------------------------------------
  // Executing actions
  // ---------------------------------------------------------------------------

  /** All results of a batch in action order, or None when one of them was aborted. */
  function Settle<T>(replies: nat -> Option<T>, n: nat): Option<seq<T>> {
    if n == 0 then Some([])
    else
      var before := Settle(replies, n - 1);
      if before.None? || replies(n - 1).None? then None else Some(before.value + [replies(n - 1).value])
  }

  function Flatten<T>(lists: seq<seq<T>>): seq<T> {
    if lists == [] then [] else Flatten(lists[..|lists| - 1]) + lists[|lists| - 1]
  }

  function Notes(texts: seq<string>): seq<Note> {
    seq(|texts|, k requires 0 <= k < |texts| => Stated(texts[k]))
  }

  function Execute(state: AgentState, d: Decision, turn: Turn): Option<AgentState> {
    var found := Settle(turn.searches, |d.searchActions|);
    if found.None? then None
    else
      var pages := Settle(turn.fetches, |d.fetchActions|);
      if pages.None? then None
      else
        Some(state.(
          searchResults := state.searchResults + Flatten(found.value),
          fetchedPages := state.fetchedPages + pages.value,
          decisions := state.decisions + [d],
          uncertainties := state.uncertainties + Notes(d.uncertainties),
          currentIteration := state.currentIteration + 1,
          finalAnswer := d.finalAnswer))
  }

  // ---------------------------------------------------------------------------
  // Completion
  // ---------------------------------------------------------------------------

  predicate Counts(c: Config, finding: Finding, pages: seq<Page>) {
    finding.disposition == Confirmed
    && (c.options.evidenceRequired ==> |MatchedUrls(c.canon, finding.evidenceUrls, pages)| > 0)
  }

  function ValidatedFindings(c: Config, findings: seq<Finding>, pages: seq<Page>): (r: seq<Finding>)
    ensures forall f :: f in r ==> f in findings && Counts(c, f, pages)
    ensures |r| <= |findings|
  {
    if findings == [] then []
    else
      (if Counts(c, findings[0], pages) then [findings[0]] else []) + ValidatedFindings(c, findings[1..], pages)
  }

  predicate EvidenceReached(c: Config, d: Decision, state: AgentState) {
    |MatchedUrls(c.canon, d.evidenceUrls, state.fetchedPages)| >= MinFetched(c.options)
  }

  /** The completion gate for a finish. */
  predicate CompletionReached(c: Config, d: Decision, state: AgentState) {
    && (c.options.evidenceRequired ==> EvidenceReached(c, d, state))
    && (c.options.mode == Some(Rounds) ==> state.currentIteration >= MaxIterations(c.options))
    && (c.options.mode == Some(TargetResults) ==>
          |ValidatedFindings(c, d.findings, state.fetchedPages)| >= TargetCount(c.options))
  }

  // ---------------------------------------------------------------------------
  // One turn
  // ---------------------------------------------------------------------------

  /** Reading a completion: the parser and the four checks that follow it, in their order. */
  function ReadReply(c: Config, state: AgentState, reply: Reply): Result<Decision, LoopError>
    requires reply.Completed?
  {
    if reply.protocolError then Err(AdapterProtocolError)
    else if reply.cutOff then Err(IncompleteResponse)
    else if reply.text.None? then Err(InvalidJson)
    else match c.parse(reply.text.value)
      case Err(error) => Err(Rejected(error.code))
      case Ok(d) =>
        match ValidateRetryIntent(d, state.decisions)
        case Some(error) => Err(error)
        case None =>
          if c.options.mode == Some(TargetResults) && d.kind == Review
             && state.decisions != [] && state.decisions[|state.decisions| - 1].kind == Review
          then Err(NoProgressReview)
          else if |d.searchActions| > MaxSearches(c.options) || |d.fetchActions| > MaxFetches(c.options)
          then Err(ActionBudgetExceeded)
          else Ok(d)
  }

  /** What follows a rejected completion. */
  function Recover(loop: Loop, error: LoopError): Outcome {
    if loop.recoveries + 1 >= MaxRecoveries then
      Return(AgentResult(Interrupt(loop.state, ProtocolFailure), loop.lastDecision, Failed))
    else Continue(loop.(protocolError := Some(error), recoveries := loop.recoveries + 1))
  }

  /** What follows a finish. */
  function Finishing(c: Config, state: AgentState, d: Decision): AgentResult {
    var next := state.(decisions := state.decisions + [d], finalAnswer := d.finalAnswer);
    if CompletionReached(c, d, state) then AgentResult(next, d, Finished)
    else
      var noted := next.(uncertainties := state.uncertainties + Notes(d.uncertainties) + [CompletionGap]);
      var reason := if state.currentIteration >= MaxIterations(c.options) then IterationsUsed else CompletionNotReached;
      AgentResult(Interrupt(noted, reason), d, Interrupted)
  }

  /** What follows an accepted decision; the recovery counter was reset to zero. */
  function Accept(c: Config, state: AgentState, d: Decision, turn: Turn): Outcome {
    if d.kind == Finish then Return(Finishing(c, state, d))
    else if state.currentIteration >= MaxIterations(c.options) then
      var recoveries := 0 + 1;
      if recoveries >= MaxRecoveries then
        assert false; Return(AgentResult(Interrupt(state, IterationsUsed), d, Interrupted))
      else Continue(Loop(state, d, Some(RoundLimitReached), recoveries))
    else match Execute(state, d, turn)
      case None => Return(AgentResult(Interrupt(state, Aborted(turn.abortedDuring)), d, Interrupted))
      case Some(next) => Continue(Loop(next, d, None, 0))
  }

  /** The part of the guard of the loop that ends it at the cap by itself. */
  predicate NothingElseAsked(o: Options) {
    o.mode == None && !o.evidenceRequired
  }

  function Step(c: Config, loop: Loop, turn: Turn): Outcome {
    var state := loop.state;
    if state.currentIteration >= MaxIterations(c.options) && NothingElseAsked(c.options) then Break
    else if turn.abortedBefore.Some? then
      Return(AgentResult(Interrupt(state, Aborted(turn.abortedBefore.value)), loop.lastDecision, Interrupted))
    else if turn.reply.Threw? then
      var reason := if turn.abortedAfter.Some? then Aborted(turn.abortedAfter.value)
                    else if turn.reply.timedOut then ModelTimeout else ProviderError;
      Return(AgentResult(Interrupt(state, reason), loop.lastDecision,
                         if turn.abortedAfter.Some? || turn.reply.timedOut then Interrupted else Failed))
    else if turn.abortedAfter.Some? then
      Return(AgentResult(Interrupt(state, Aborted(turn.abortedAfter.value)), loop.lastDecision, Interrupted))
    else match ReadReply(c, state, turn.reply)
      case Err(error) => Recover(loop, error)
      case Ok(d) => Accept(c, state, d, turn)
  }

  /** The end of the loop without a return. */
  function Ending(loop: Loop): AgentResult {
    if loop.protocolError.Some? then AgentResult(Interrupt(loop.state, ProtocolFailure), loop.lastDecision, Failed)
    else AgentResult(Interrupt(loop.state, IterationsUsed), loop.lastDecision, Interrupted)
  }

  /** What a call makes of the loop variables. */
  type Steps = (Loop, nat) -> Outcome

  function StepsOf(c: Config, env: Environment): Steps {
    (loop: Loop, call: nat) => Step(c, loop, env(call))
  }

  /** The loop over any steps, from call `call` on. */
  function RunWith(step: Steps, calls: nat, loop: Loop, call: nat): AgentResult
    requires call <= calls
    decreases calls - call
  {
    if call == calls then Ending(loop)
    else match step(loop, call)
      case Continue(next) => RunWith(step, calls, next, call + 1)
      case Break => Ending(loop)
      case Return(result) => result
  }

  function RunFrom(c: Config, env: Environment, loop: Loop, call: nat): AgentResult
    requires call <= MaxCalls(c.options)
  {
    RunWith(StepsOf(c, env), MaxCalls(c.options), loop, call)
  }

  function Run(c: Config, env: Environment): AgentResult {
    RunFrom(c, env, InitialLoop(), 0)
  }

  /** The loop variables before call `n` when all calls before it let the loop continue. */
  function BeforeWith(step: Steps, n: nat): Option<Loop> {
    if n == 0 then Some(InitialLoop())
    else match BeforeWith(step, n - 1)
      case None => None
      case Some(loop) =>
        match step(loop, n - 1)
        case Continue(next) => Some(next)
        case Break => None
        case Return(_) => None
  }

  /** The same for the model calls of a run. */
  function Before(c: Config, env: Environment, n: nat): Option<Loop> {
    BeforeWith(StepsOf(c, env), n)
  }

  /** The last call of a run: what it was in and how it ended. */
  ghost predicate EndsAt(c: Config, env: Environment, n: nat, loop: Loop) {
    && n <= MaxCalls(c.options) && Before(c, env, n) == Some(loop)
    && (n == MaxCalls(c.options) || !Step(c, loop, env(n)).Continue?)
  }

  function EndingAt(c: Config, env: Environment, n: nat, loop: Loop): AgentResult {
    if n < MaxCalls(c.options) && Step(c, loop, env(n)).Return? then Step(c, loop, env(n)).result else Ending(loop)
  }

  lemma {:induction false} NextBefore(c: Config, env: Environment, n: nat, loop: Loop)
    requires Before(c, env, n) == Some(loop) && Step(c, loop, env(n)).Continue?
    ensures Before(c, env, n + 1) == Some(Step(c, loop, env(n)).loop)
  {
  }

  lemma {:induction false} Predecessor(c: Config, env: Environment, n: nat, loop: Loop) returns (before: Loop)
    requires n > 0 && Before(c, env, n) == Some(loop)
    ensures Before(c, env, n - 1) == Some(before) && Step(c, before, env(n - 1)) == Continue(loop)
  {
    before := Before(c, env, n - 1).value;
    assert StepsOf(c, env)(before, n - 1) == Step(c, before, env(n - 1));
  }

  lemma {:induction false} RunUnfolds(c: Config, env: Environment, n: nat, loop: Loop)
    requires n < MaxCalls(c.options) && Step(c, loop, env(n)).Continue?
    ensures RunFrom(c, env, loop, n) == RunFrom(c, env, Step(c, loop, env(n)).loop, n + 1)
  {
  }

  lemma {:induction false} RunStops(c: Config, env: Environment, n: nat, loop: Loop)
    requires n <= MaxCalls(c.options) && (n == MaxCalls(c.options) || !Step(c, loop, env(n)).Continue?)
    ensures RunFrom(c, env, loop, n) == EndingAt(c, env, n, loop)
  {
  }

  lemma {:induction false} RunWithEnds(step: Steps, calls: nat, n: nat, loop: Loop) returns (m: nat, last: Loop)
    requires n <= calls && BeforeWith(step, n) == Some(loop)
    ensures m <= calls && BeforeWith(step, m) == Some(last) && (m == calls || !step(last, m).Continue?)
    ensures RunWith(step, calls, loop, n) == RunWith(step, calls, last, m)
    decreases calls - n
  {
    m, last := n, loop;
    if n < calls && step(loop, n).Continue? {
      m, last := RunWithEnds(step, calls, n + 1, step(loop, n).loop);
    }
  }

  lemma {:induction false} RunWithIsRun(step: Steps, calls: nat, n: nat, loop: Loop)
    requires n <= calls && BeforeWith(step, n) == Some(loop)
    ensures RunWith(step, calls, loop, n) == RunWith(step, calls, InitialLoop(), 0)
  {
    if n > 0 {
      RunWithIsRun(step, calls, n - 1, BeforeWith(step, n - 1).value);
    }
  }

  /** Every run ends, and its result is that of its last call. */
  lemma {:induction false} RunEndsFrom(c: Config, env: Environment, n: nat, loop: Loop) returns (m: nat, last: Loop)
    requires n <= MaxCalls(c.options) && Before(c, env, n) == Some(loop)
    ensures EndsAt(c, env, m, last) && RunFrom(c, env, loop, n) == EndingAt(c, env, m, last)
  {
    m, last := RunWithEnds(StepsOf(c, env), MaxCalls(c.options), n, loop);
    RunStops(c, env, m, last);
  }

  /** What is left of a run from any of its calls gives the result of the run. */
  lemma {:induction false} RunFromIsRun(c: Config, env: Environment, n: nat, loop: Loop)
    requires n <= MaxCalls(c.options) && Before(c, env, n) == Some(loop)
    ensures RunFrom(c, env, loop, n) == Run(c, env)
  {
    RunWithIsRun(StepsOf(c, env), MaxCalls(c.options), n, loop);
  }

  lemma {:induction false} RunEndsWith(c: Config, env: Environment, n: nat, loop: Loop)
    requires EndsAt(c, env, n, loop)
    ensures Run(c, env) == EndingAt(c, env, n, loop)
  {
    RunFromIsRun(c, env, n, loop);
    RunStops(c, env, n, loop);
  }

  // ---------------------------------------------------------------------------
  // The call bound
  // ---------------------------------------------------------------------------

  /** Calls are paid for: two by each executed turn and one by a pending recovery. */
  ghost predicate Paid(c: Config, loop: Loop, n: nat) {
    && loop.state.currentIteration <= MaxIterations(c.options)
    && loop.recoveries < MaxRecoveries
    && (loop.state.currentIteration < MaxIterations(c.options) ==> n <= 2 * loop.state.currentIteration + loop.recoveries)
    && loop.state.currentIteration == |loop.state.decisions|
    && loop.state.interrupted == None
  }

  lemma {:induction false} StepPays(c: Config, loop: Loop, turn: Turn, n: nat)
    requires Paid(c, loop, n) && Step(c, loop, turn).Continue?
    ensures Paid(c, Step(c, loop, turn).loop, n + 1)
    ensures var next := Step(c, loop, turn).loop;
      next.state.currentIteration > loop.state.currentIteration ==>
        next.state.currentIteration == loop.state.currentIteration + 1 && n + 1 <= 2 * next.state.currentIteration
    ensures var next := Step(c, loop, turn).loop;
      next.state.currentIteration <= loop.state.currentIteration ==> next.protocolError.Some?
  {
  }

  lemma {:induction false} AlwaysPaid(c: Config, env: Environment, n: nat)
    requires Before(c, env, n).Some?
    ensures Paid(c, Before(c, env, n).value, n)
  {
    if n > 0 {
      AlwaysPaid(c, env, n - 1);
      StepPays(c, Before(c, env, n - 1).value, env(n - 1), n - 1);
    }
  }

  /**
   The call bound never cuts a run below the iteration cap, no run executes more than
   100 turns, and the turn that reaches the cap leaves at least two calls.
   */
  lemma {:induction false} CallBoundSparesIterations(c: Config, env: Environment, n: nat)
    requires Before(c, env, n).Some?
    ensures var iteration := Before(c, env, n).value.state.currentIteration;
      && iteration <= MaxIterations(c.options) <= 100
      && iteration == |Before(c, env, n).value.state.decisions|
      && (iteration < MaxIterations(c.options) ==> n <= 2 * iteration + 1 < MaxCalls(c.options))
      && (n > 0 && iteration == MaxIterations(c.options)
          && Before(c, env, n - 1).value.state.currentIteration < iteration
          ==> MaxCalls(c.options) - n >= 2)
  {
    AlwaysPaid(c, env, n);
    if n > 0 {
      AlwaysPaid(c, env, n - 1);
      StepPays(c, Before(c, env, n - 1).value, env(n - 1), n - 1);
    }
  }

  // ---------------------------------------------------------------------------
  // Completion is sound
  // ---------------------------------------------------------------------------

  /** What a run reports as completed has passed the gate against the pages it fetched. */
  lemma {:induction false} CompletedIsSound(c: Config, env: Environment)
    requires Run(c, env).status == Finished
    ensures var r := Run(c, env);
      && r.decision.kind == Finish
      && r.state.decisions != [] && r.state.decisions[|r.state.decisions| - 1] == r.decision
      && r.state.finalAnswer == r.decision.finalAnswer
      && r.state.interrupted == None
      && CompletionReached(c, r.decision, r.state)
  {
    var n, loop := RunEndsFrom(c, env, 0, InitialLoop());
    AlwaysPaid(c, env, n);
    var d := ReadReply(c, loop.state, env(n).reply).value;
    assert Run(c, env) == Finishing(c, loop.state, d);
  }

  ghost predicate Backed(c: Config, f: Finding, pages: seq<Page>) {
    && f.disposition == Confirmed
    && (c.options.evidenceRequired ==> CitesFetchedPage(c.canon, f.evidenceUrls, pages))
  }

  predicate Increasing(at: seq<nat>) {
    forall i, k :: 0 <= i < k < |at| ==> at[i] < at[k]
  }

  /** Where the validated findings stand in the list. */
  lemma {:induction false} ValidatedAt(c: Config, findings: seq<Finding>, pages: seq<Page>) returns (at: seq<nat>)
    ensures Increasing(at) && |at| == |ValidatedFindings(c, findings, pages)|
    ensures forall i :: 0 <= i < |at| ==> at[i] < |findings| && Counts(c, findings[at[i]], pages)
  {
    at := [];
    if findings != [] {
      var rest := ValidatedAt(c, findings[1..], pages);
      at := seq(|rest|, i requires 0 <= i < |rest| => rest[i] + 1);
      if Counts(c, findings[0], pages) { at := [0] + at; }
    }
  }

  /** The decision of a finished run was accepted by the parser. */
  lemma {:induction false} FinishedIsParsed(c: Config, env: Environment) returns (value: Json)
    requires Run(c, env).status == Finished
    ensures c.parse(value) == Ok(Run(c, env).decision)
  {
    var n, loop := RunEndsFrom(c, env, 0, InitialLoop());
    AlwaysPaid(c, env, n);
    var d := ReadReply(c, loop.state, env(n).reply).value;
    assert Run(c, env) == Finishing(c, loop.state, d);
    value := env(n).reply.text.value;
  }

  /**
   In target mode a completed run has the target number of confirmed findings, at
   different places of its list and, as the parser accepts them, with different ids and
   claims. Where evidence is required, each cites a page that was fetched with content.
   */
  lemma {:induction false} CompletedFindingsAreBacked(c: Config, norm: Norm, env: Environment) returns (at: seq<nat>)
    requires Run(c, env).status == Finished && c.options.mode == Some(TargetResults)
    ensures |at| >= TargetCount(c.options) && Increasing(at)
    ensures var r := Run(c, env);
      forall i :: 0 <= i < |at| ==>
        at[i] < |r.decision.findings| && Backed(c, r.decision.findings[at[i]], r.state.fetchedPages)
    ensures IsUrlNorm(norm) && (forall value :: c.parse(value) == Parse(norm, value)) ==>
      FindingsDiffer(Run(c, env).decision.findings)
  {
    CompletedIsSound(c, env);
    var r := Run(c, env);
    at := ValidatedAt(c, r.decision.findings, r.state.fetchedPages);
    forall i | 0 <= i < |at| ensures Backed(c, r.decision.findings[at[i]], r.state.fetchedPages) {
      if c.options.evidenceRequired {
        MatchMeansFetchedPage(c.canon, r.decision.findings[at[i]].evidenceUrls, r.state.fetchedPages);
      }
    }
    if IsUrlNorm(norm) && forall value :: c.parse(value) == Parse(norm, value) {
      var value := FinishedIsParsed(c, env);
      AcceptedIsWellFormed(norm, value);
    }
  }

  /**
   What the evidence gate leaves of fetch responses and of documents. A completed run
   cites at least half as many responses as it was asked for pages, and all of them unless
   it cites a response under two keys. It cites at least one document, and as many as it
   was asked for unless two cited keys lead to the same one.
   */
  lemma {:induction false} CompletedPagesAreCited(c: Config, document: string -> string, env: Environment)
    requires Run(c, env).status == Finished && c.options.evidenceRequired
    ensures var r := Run(c, env); var cited, pages := r.decision.evidenceUrls, r.state.fetchedPages;
      var responses := |MatchedPages(c.canon, cited, pages)|;
      && 2 * responses >= MinFetched(c.options)
      && ((forall k :: 0 <= k < |pages| ==> !CitedTwice(c.canon, cited, pages, k)) ==> responses >= MinFetched(c.options))
    ensures var r := Run(c, env); var cited, pages := r.decision.evidenceUrls, r.state.fetchedPages;
      var documents := DocumentsOf(document, MatchedUrls(c.canon, cited, pages));
      && documents <= FetchedDocuments(document, pages) && |documents| >= 1
      && (!SharesDocument(c.canon, document, cited, pages) ==> |documents| >= MinFetched(c.options))
  {
    CompletedIsSound(c, env);
    var cited, pages := Run(c, env).decision.evidenceUrls, Run(c, env).state.fetchedPages;
    ResultCountsPagesIff(c.canon, cited, pages);
    ResultCountsDocumentsIff(c.canon, document, cited, pages);
    var urls := MatchedUrls(c.canon, cited, pages);
    assert document(urls[0]) in DocumentsOf(document, urls);
    NotEmpty(DocumentsOf(document, urls), document(urls[0]));
  }

  lemma {:induction false} NotEmpty<T>(s: set<T>, x: T)
    requires x in s
    ensures |s| >= 1
  {
    assert s != {};
  }

  // ---------------------------------------------------------------------------
  // How a run ends at the cap
  // ---------------------------------------------------------------------------

  /** The turn is undisturbed and its decision is accepted. */
  ghost predicate Accepts(c: Config, state: AgentState, turn: Turn) {
    && turn.abortedBefore == None && turn.abortedAfter == None && turn.reply.Completed?
    && ReadReply(c, state, turn.reply).Ok?
  }

  ghost predicate KeepsWorking(c: Config, state: AgentState, turn: Turn) {
    Accepts(c, state, turn) && ReadReply(c, state, turn.reply).value.kind != Finish
  }

  ghost predicate MissesTheGate(c: Config, state: AgentState, turn: Turn) {
    && Accepts(c, state, turn)
    && var d := ReadReply(c, state, turn.reply).value; d.kind == Finish && !CompletionReached(c, d, state)
  }

  lemma {:induction false} TurnClearsError(c: Config, loop: Loop, turn: Turn)
    requires Step(c, loop, turn).Continue?
    requires Step(c, loop, turn).loop.state.currentIteration > loop.state.currentIteration
    ensures Step(c, loop, turn).loop.protocolError == None
  {
  }

  lemma {:induction false} ContinuesBelowTheCap(c: Config, loop: Loop, turn: Turn)
    requires loop.state.currentIteration <= MaxIterations(c.options) && NothingElseAsked(c.options)
    requires Step(c, loop, turn).Continue?
    ensures loop.state.currentIteration < MaxIterations(c.options)
  {
  }

  /** With nothing else asked, the loop comes to the cap by executing a turn, so without an error and with calls left. */
  lemma {:induction false} ArrivesWithoutError(c: Config, env: Environment, n: nat, loop: Loop)
    requires n <= MaxCalls(c.options) && Before(c, env, n) == Some(loop) && NothingElseAsked(c.options)
    requires loop.state.currentIteration == MaxIterations(c.options)
    ensures loop.protocolError == None && n < MaxCalls(c.options)
  {
    assert n > 0;
    var before := Predecessor(c, env, n, loop);
    AlwaysPaid(c, env, n - 1);
    ContinuesBelowTheCap(c, before, env(n - 1));
    TurnClearsError(c, before, env(n - 1));
    CallBoundSparesIterations(c, env, n);
  }

  /** With nothing else asked, a run that comes to the cap stops there. */
  lemma {:induction false} StopsAtTheCap(c: Config, env: Environment, n: nat, loop: Loop)
    requires n <= MaxCalls(c.options) && Before(c, env, n) == Some(loop) && NothingElseAsked(c.options)
    requires loop.state.currentIteration == MaxIterations(c.options)
    ensures Run(c, env) == AgentResult(Interrupt(loop.state, IterationsUsed), loop.lastDecision, Interrupted)
  {
    ArrivesWithoutError(c, env, n, loop);
    RunEndsWith(c, env, n, loop);
  }

  lemma {:induction false} LastStepIsAnError(c: Config, loop: Loop, turn: Turn, n: nat)
    requires Paid(c, loop, n) && n + 1 == MaxCalls(c.options) && Step(c, loop, turn).Continue?
    ensures Step(c, loop, turn).loop.protocolError.Some?
  {
    StepPays(c, loop, turn, n);
  }

  /** A loop that has used all its calls has an error on record. */
  lemma {:induction false} AtTheBoundIsAnError(c: Config, env: Environment, n: nat)
    requires n == MaxCalls(c.options) && Before(c, env, n).Some?
    ensures Before(c, env, n).value.protocolError.Some?
  {
    AlwaysPaid(c, env, n - 1);
    LastStepIsAnError(c, Before(c, env, n - 1).value, env(n - 1), n - 1);
  }

  lemma {:induction false} WorkingStep(c: Config, loop: Loop, turn: Turn)
    requires loop.state.currentIteration == MaxIterations(c.options) && !NothingElseAsked(c.options)
    requires KeepsWorking(c, loop.state, turn)
    ensures Step(c, loop, turn).Continue? && Step(c, loop, turn).loop.state == loop.state
  {
  }

  /** Nothing but the call bound stops a model that keeps working at the cap. */
  lemma {:induction false} WorkingGoesOn(c: Config, env: Environment, n: nat, loop: Loop) returns (last: Loop)
    requires n <= MaxCalls(c.options) && Before(c, env, n) == Some(loop) && !NothingElseAsked(c.options)
    requires loop.state.currentIteration == MaxIterations(c.options)
    requires forall k :: n <= k < MaxCalls(c.options) ==> KeepsWorking(c, loop.state, env(k))
    ensures Before(c, env, MaxCalls(c.options)) == Some(last) && last.state == loop.state
    decreases MaxCalls(c.options) - n
  {
    if n == MaxCalls(c.options) {
      last := loop;
    } else {
      WorkingStep(c, loop, env(n));
      NextBefore(c, env, n, loop);
      last := WorkingGoesOn(c, env, n + 1, Step(c, loop, env(n)).loop);
    }
  }

  /**
   How a run ends whose model comes to the cap and then sends valid decisions other than
   a finish for as long as it is asked: interrupted at once when the task has no mode and
   needs no evidence, and otherwise stopped by the call bound alone, as failed with a
   protocol error.
   */
  lemma {:induction false} WorkingAtTheCapFails(c: Config, env: Environment, n: nat, loop: Loop)
    requires n <= MaxCalls(c.options) && Before(c, env, n) == Some(loop)
    requires loop.state.currentIteration == MaxIterations(c.options)
    requires forall k :: n <= k < MaxCalls(c.options) ==> KeepsWorking(c, loop.state, env(k))
    ensures var r := Run(c, env);
      if NothingElseAsked(c.options) then r.status == Interrupted && r.state == Interrupt(loop.state, IterationsUsed)
      else r.status == Failed && r.state == Interrupt(loop.state, ProtocolFailure)
  {
    if NothingElseAsked(c.options) {
      StopsAtTheCap(c, env, n, loop);
    } else {
      var last := WorkingGoesOn(c, env, n, loop);
      AtTheBoundIsAnError(c, env, MaxCalls(c.options));
      RunEndsWith(c, env, MaxCalls(c.options), last);
    }
  }

  /** A model that answers every call with the decision to review. */
  function PlainReview(): Decision {
    Decision(Review, [], [], [], None, [], [])
  }

  function OneRound(canon: Canon): Config {
    Config(Options(Some(1), Some(Rounds), None, false, None, None, None), _ => Ok(PlainReview()), canon)
  }

  function Undisturbed(value: Json): Turn {
    Turn(None, Completed(false, false, Some(value)), None, _ => None, _ => None, AbortCancelled)
  }

  function Reviewing(): Environment {
    _ => Undisturbed(Null)
  }

  lemma {:induction false} ReviewIsRead(canon: Canon, state: AgentState)
    ensures Accepts(OneRound(canon), state, Undisturbed(Null))
    ensures ReadReply(OneRound(canon), state, Undisturbed(Null).reply) == Ok(PlainReview())
  {
    assert SearchesOf(PlainReview()) == [] && FetchesOf(PlainReview()) == [];
  }

  /** One round of review comes to the cap, where the model keeps reviewing: the run fails although nothing went wrong. */
  lemma {:induction false} ReviewingFails(canon: Canon)
    ensures var r := Run(OneRound(canon), Reviewing());
      r.status == Failed && r.state.interrupted == Some(ProtocolFailure) && r.state.currentIteration == 1
  {
    var c, env := OneRound(canon), Reviewing();
    ReviewIsRead(canon, InitialLoop().state);
    NextBefore(c, env, 0, InitialLoop());
    var loop := Step(c, InitialLoop(), env(0)).loop;
    forall k | 1 <= k < MaxCalls(c.options) ensures KeepsWorking(c, loop.state, env(k)) {
      ReviewIsRead(canon, loop.state);
    }
    WorkingAtTheCapFails(c, env, 1, loop);
  }

  /** The run is at the cap before call `n`, and is either not asked for more or finishes without passing the gate. */
  ghost predicate UsesUp(c: Config, env: Environment, n: nat, loop: Loop) {
    && n < MaxCalls(c.options) && Before(c, env, n) == Some(loop)
    && loop.state.currentIteration == MaxIterations(c.options)
    && (NothingElseAsked(c.options) || MissesTheGate(c, loop.state, env(n)))
  }

  lemma {:induction false} UsedUpStep(c: Config, loop: Loop, turn: Turn)
    requires loop.state.currentIteration == MaxIterations(c.options) && MissesTheGate(c, loop.state, turn)
    requires !NothingElseAsked(c.options)
    ensures Step(c, loop, turn).Return?
    ensures Step(c, loop, turn).result.state.interrupted == Some(IterationsUsed)
  {
  }

  lemma {:induction false} UsedUpReturn(c: Config, loop: Loop, turn: Turn)
    requires loop.state.currentIteration <= MaxIterations(c.options) && loop.state.interrupted == None
    requires Step(c, loop, turn).Return? && Step(c, loop, turn).result.state.interrupted == Some(IterationsUsed)
    ensures loop.state.currentIteration == MaxIterations(c.options) && MissesTheGate(c, loop.state, turn)
  {
  }

  /**
   A run says that its iterations are used up exactly when it comes to the cap and there
   either nothing else is asked or a finish misses the gate.
   */
  lemma {:induction false} IterationsUsedIff(c: Config, env: Environment)
    ensures Run(c, env).state.interrupted == Some(IterationsUsed) <==> exists n, loop :: UsesUp(c, env, n, loop)
  {
    if Run(c, env).state.interrupted == Some(IterationsUsed) {
      var n, loop := RunEndsFrom(c, env, 0, InitialLoop());
      AlwaysPaid(c, env, n);
      if n == MaxCalls(c.options) {
        AtTheBoundIsAnError(c, env, n);
      } else if Step(c, loop, env(n)).Return? {
        UsedUpReturn(c, loop, env(n));
      }
      assert UsesUp(c, env, n, loop);
    }
    if n, loop :| UsesUp(c, env, n, loop) {
      if NothingElseAsked(c.options) {
        StopsAtTheCap(c, env, n, loop);
      } else {
        UsedUpStep(c, loop, env(n));
        RunEndsWith(c, env, n, loop);
      }
    }
  }

  /** What the result of such a run looks like. */
  lemma {:induction false} IterationsUsedMeans(c: Config, env: Environment)
    requires Run(c, env).state.interrupted == Some(IterationsUsed)
    ensures var r := Run(c, env);
      && r.status == Interrupted && r.state.currentIteration == MaxIterations(c.options)
      && ((r.decision.kind == Finish && !CompletionReached(c, r.decision, r.state)) || NothingElseAsked(c.options))
  {
    var n, loop := RunEndsFrom(c, env, 0, InitialLoop());
    CallBoundSparesIterations(c, env, n);
    AlwaysPaid(c, env, n);
    if n == MaxCalls(c.options) {
      AtTheBoundIsAnError(c, env, n);
    } else if Step(c, loop, env(n)).Return? {
      var d := ReadReply(c, loop.state, env(n).reply).value;
      assert Run(c, env) == Finishing(c, loop.state, d);
    }
  }

  // ---------------------------------------------------------------------------
  // When a run is finished, and when it fails by the protocol
  // ---------------------------------------------------------------------------

  /** Call `n` is answered by a finish that passes the gate. */
  ghost predicate FinishesAt(c: Config, env: Environment, n: nat, loop: Loop) {
    && n < MaxCalls(c.options) && Before(c, env, n) == Some(loop)
    && !(loop.state.currentIteration >= MaxIterations(c.options) && NothingElseAsked(c.options))
    && Accepts(c, loop.state, env(n))
    && var d := ReadReply(c, loop.state, env(n).reply).value; d.kind == Finish && CompletionReached(c, d, loop.state)
  }

  lemma {:induction false} FinishedStep(c: Config, env: Environment, n: nat, loop: Loop)
    requires n < MaxCalls(c.options) && Before(c, env, n) == Some(loop)
    ensures FinishesAt(c, env, n, loop) <==> Step(c, loop, env(n)).Return? && Step(c, loop, env(n)).result.status == Finished
  {
  }

  /** A run is finished exactly when one of its calls is answered by a finish that passes the gate. */
  lemma {:induction false} FinishedIff(c: Config, env: Environment)
    ensures Run(c, env).status == Finished <==> exists n, loop :: FinishesAt(c, env, n, loop)
  {
    if Run(c, env).status == Finished {
      var n, loop := RunEndsFrom(c, env, 0, InitialLoop());
      FinishedStep(c, env, n, loop);
      assert FinishesAt(c, env, n, loop);
    }
    if n: nat, loop :| FinishesAt(c, env, n, loop) {
      FinishedStep(c, env, n, loop);
      RunEndsWith(c, env, n, loop);
    }
  }

  // A run that was asked for several pages and finishes on one document.

  function FetchAll(from: seq<string>): Decision {
    Decision(Fetch, [], seq(|from|, k requires 0 <= k < |from| => FetchAction(from[k], false)), [], None, [], [])
  }

  function CiteAll(from: seq<string>): Decision {
    Decision(Finish, [], [], [], Some("done"), from, [Finding("1", "found", Confirmed, from)])
  }

  /** As many pages are asked for as there are URLs; the model fetches them all and then cites them all. */
  function AskedForAll(canon: Canon, from: seq<string>): Config {
    Config(Options(None, None, None, true, Some(|from|), None, None),
           value => Ok(if value == Null then FetchAll(from) else CiteAll(from)), canon)
  }

  /** Every URL is redirected to the same document. */
  function AllRedirected(from: seq<string>, to: string): Environment {
    call => Turn(None, Completed(false, false, Some(if call == 0 then Null else Bool(true))), None, _ => None,
                 (k: nat) => if k < |from| then Some(Page(SuccessWithContent, from[k], to)) else None, AbortCancelled)
  }

  lemma {:induction false} FreshIsAllowed(actions: seq<Attempt>)
    requires forall k :: 0 <= k < |actions| ==> !actions[k].retry
    ensures RetryError([], actions) == None
  {
    if actions != [] {
      FreshIsAllowed(actions[1..]);
    }
  }

  lemma {:induction false} FetchAllIsRead(canon: Canon, from: seq<string>, to: string)
    requires |from| <= 8
    ensures var c, turn := AskedForAll(canon, from), AllRedirected(from, to)(0);
      Accepts(c, InitialLoop().state, turn) && ReadReply(c, InitialLoop().state, turn.reply) == Ok(FetchAll(from))
  {
    assert SearchesOf(FetchAll(from)) == [];
    FreshIsAllowed(FetchesOf(FetchAll(from)));
    FreshIsAllowed([]);
  }

  lemma {:induction false} CiteAllIsRead(canon: Canon, from: seq<string>, to: string, state: AgentState)
    ensures var c, turn := AskedForAll(canon, from), AllRedirected(from, to)(1);
      Accepts(c, state, turn) && ReadReply(c, state, turn.reply) == Ok(CiteAll(from))
  {
    assert SearchesOf(CiteAll(from)) == [] && FetchesOf(CiteAll(from)) == [];
  }

  lemma {:induction false} FetchAllExecutes(from: seq<string>, to: string, state: AgentState)
    requires state.fetchedPages == []
    ensures var next := Execute(state, FetchAll(from), AllRedirected(from, to)(0));
      next.Some? && next.value.fetchedPages == RedirectedTo(from, to)
      && next.value.currentIteration == state.currentIteration + 1
  {
    var turn := AllRedirected(from, to)(0);
    SettledInOrder(turn.fetches, |from|);
    assert Settle(turn.fetches, |from|).value == RedirectedTo(from, to);
    assert Settle(turn.searches, 0) == Some([]);
  }

  /** Up to eight pages are asked for; the run fetches one document as often and is completed. */
  lemma {:induction false} OneDocumentCompletes(canon: Canon, document: string -> string, from: seq<string>, to: string)
    requires 1 <= |from| <= 8 && KeyedApart(canon, from) && to != ""
    ensures var r := Run(AskedForAll(canon, from), AllRedirected(from, to));
      && r.status == Finished && MinFetched(AskedForAll(canon, from).options) == |from|
      && DocumentsOf(document, MatchedUrls(canon, r.decision.evidenceUrls, r.state.fetchedPages)) == {document(to)}
  {
    var c, env := AskedForAll(canon, from), AllRedirected(from, to);
    var first := InitialLoop();
    FetchAllIsRead(canon, from, to);
    FetchAllExecutes(from, to, first.state);
    NextBefore(c, env, 0, first);
    var loop := Step(c, first, env(0)).loop;
    CiteAllIsRead(canon, from, to, loop.state);
    OneDocumentCountsOften(canon, document, from, to);
    assert FinishesAt(c, env, 1, loop);
    FinishedStep(c, env, 1, loop);
    RunEndsWith(c, env, 1, loop);
  }

  /** The turn is undisturbed and its completion is rejected. */
  ghost predicate Rejects(c: Config, state: AgentState, turn: Turn) {
    && turn.abortedBefore == None && turn.abortedAfter == None && turn.reply.Completed?
    && ReadReply(c, state, turn.reply).Err?
  }

  /** The completion is rejected, or asks for work at the cap. */
  ghost predicate GetsNowhere(c: Config, state: AgentState, turn: Turn) {
    || Rejects(c, state, turn)
    || (state.currentIteration >= MaxIterations(c.options) && KeepsWorking(c, state, turn))
  }

  /** Call `n` is answered by a rejected completion, and the call before it got nowhere either. */
  ghost predicate FailsTwice(c: Config, env: Environment, n: nat, before: Loop, loop: Loop) {
    && 0 < n < MaxCalls(c.options) && Before(c, env, n - 1) == Some(before) && Before(c, env, n) == Some(loop)
    && GetsNowhere(c, before.state, env(n - 1)) && Rejects(c, loop.state, env(n))
  }

  lemma {:induction false} RecoveringStep(c: Config, loop: Loop, turn: Turn)
    requires Step(c, loop, turn).Continue?
    ensures var next := Step(c, loop, turn).loop;
      (GetsNowhere(c, loop.state, turn) <==> next.recoveries > 0) && (next.recoveries > 0 ==> next.protocolError.Some?)
  {
  }

  lemma {:induction false} FailingReturn(c: Config, loop: Loop, turn: Turn)
    requires loop.state.interrupted == None
    requires Step(c, loop, turn).Return? && Step(c, loop, turn).result.state.interrupted == Some(ProtocolFailure)
    ensures loop.recoveries > 0 && Rejects(c, loop.state, turn)
  {
  }

  lemma {:induction false} FailingStep(c: Config, loop: Loop, turn: Turn)
    requires loop.recoveries > 0 && Rejects(c, loop.state, turn)
    requires !(loop.state.currentIteration >= MaxIterations(c.options) && NothingElseAsked(c.options))
    ensures Step(c, loop, turn).Return? && Step(c, loop, turn).result.state.interrupted == Some(ProtocolFailure)
  {
  }

  lemma {:induction false} FirstHasNoRecoveries(c: Config, env: Environment, n: nat, loop: Loop)
    requires Before(c, env, n) == Some(loop) && loop.recoveries > 0
    ensures n > 0
  {
  }

  lemma {:induction false} BoundIsAFailure(c: Config, env: Environment, loop: Loop)
    requires Before(c, env, MaxCalls(c.options)) == Some(loop)
    ensures Run(c, env).state.interrupted == Some(ProtocolFailure)
  {
    AtTheBoundIsAnError(c, env, MaxCalls(c.options));
    RunEndsWith(c, env, MaxCalls(c.options), loop);
  }

  lemma {:induction false} TwiceIsAFailure(c: Config, env: Environment, n: nat, before: Loop, loop: Loop)
    requires FailsTwice(c, env, n, before, loop)
    ensures Run(c, env).state.interrupted == Some(ProtocolFailure)
  {
    var last := Predecessor(c, env, n, loop);
    RecoveringStep(c, before, env(n - 1));
    AlwaysPaid(c, env, n);
    if NothingElseAsked(c.options) && loop.state.currentIteration >= MaxIterations(c.options) {
      ArrivesWithoutError(c, env, n, loop);
      assert false;
    }
    FailingStep(c, loop, env(n));
    RunEndsWith(c, env, n, loop);
  }

  lemma {:induction false} FailureIsTwice(c: Config, env: Environment) returns (n: nat, before: Loop, loop: Loop)
    requires Run(c, env).state.interrupted == Some(ProtocolFailure) && Before(c, env, MaxCalls(c.options)).None?
    ensures FailsTwice(c, env, n, before, loop)
  {
    n, loop := RunEndsFrom(c, env, 0, InitialLoop());
    AlwaysPaid(c, env, n);
    if Step(c, loop, env(n)) == Break {
      ArrivesWithoutError(c, env, n, loop);
      assert false;
    }
    FailingReturn(c, loop, env(n));
    FirstHasNoRecoveries(c, env, n, loop);
    before := Predecessor(c, env, n, loop);
    RecoveringStep(c, before, env(n - 1));
  }

  /**
   A run fails by the protocol exactly when it uses all its calls, or a completion is
   rejected right after one that was rejected or asked for work at the cap.
   */
  lemma {:induction false} ProtocolFailureIff(c: Config, env: Environment)
    ensures Run(c, env).state.interrupted == Some(ProtocolFailure) <==>
      || Before(c, env, MaxCalls(c.options)).Some?
      || exists n, before, loop :: FailsTwice(c, env, n, before, loop)
  {
    if Before(c, env, MaxCalls(c.options)).Some? {
      BoundIsAFailure(c, env, Before(c, env, MaxCalls(c.options)).value);
    } else if Run(c, env).state.interrupted == Some(ProtocolFailure) {
      var n, before, loop := FailureIsTwice(c, env);
    }
    if n: nat, before, loop :| FailsTwice(c, env, n, before, loop) {
      TwiceIsAFailure(c, env, n, before, loop);
    }
  }

  // ---------------------------------------------------------------------------
  // The exact-action budget
  // ---------------------------------------------------------------------------

  predicate Earlier(history: seq<Attempt>, i: nat, text: string) {
    exists j :: 0 <= j < i && j < |history| && history[j].text == text
  }

  /** Every text at most three times, marked as a retry exactly when it occurred before. */
  ghost predicate Budgeted(history: seq<Attempt>) {
    && (forall text :: Count(history, text) <= MaxAttempts)
    && (forall i :: 0 <= i < |history| ==> (history[i].retry <==> Earlier(history, i, history[i].text)))
  }

  lemma {:induction false} CountIsPositive(history: seq<Attempt>, text: string)
    ensures Count(history, text) > 0 <==> Earlier(history, |history|, text)
  {
    if history != [] {
      var init := history[..|history| - 1];
      CountIsPositive(init, text);
      if j :| 0 <= j < |history| - 1 && history[j].text == text {
        assert init[j].text == text;
      }
    }
  }

  lemma {:induction false} CountAppends(a: seq<Attempt>, b: seq<Attempt>, text: string)
    ensures Count(a + b, text) == Count(a, text) + Count(b, text)
  {
    if b == [] {
      assert a + b == a;
    } else {
      assert (a + b)[..|a + b| - 1] == a + b[..|b| - 1];
      CountAppends(a, b[..|b| - 1], text);
    }
  }

  predicate Distinct(actions: seq<Attempt>) {
    forall i, k :: 0 <= i < k < |actions| ==> actions[i].text != actions[k].text
  }

  lemma {:induction false} DistinctCountsOnce(actions: seq<Attempt>, text: string)
    requires Distinct(actions)
    ensures Count(actions, text) <= 1
  {
    if actions != [] {
      var init := actions[..|actions| - 1];
      DistinctCountsOnce(init, text);
      CountIsPositive(init, text);
    }
  }

  lemma {:induction false} AllowedActions(history: seq<Attempt>, actions: seq<Attempt>, k: nat)
    requires RetryError(history, actions) == None && k < |actions|
    ensures Count(history, actions[k].text) < MaxAttempts
    ensures actions[k].retry <==> Count(history, actions[k].text) > 0
  {
    if k > 0 {
      AllowedActions(history, actions[1..], k - 1);
    }
  }

  /** Needs both checks: the parser forbids duplicates within a decision, the history check across. */
  lemma {:induction false} AllowedKeepsBudget(history: seq<Attempt>, actions: seq<Attempt>)
    requires Budgeted(history) && Distinct(actions) && RetryError(history, actions) == None
    ensures Budgeted(history + actions)
  {
    var all := history + actions;
    forall text ensures Count(all, text) <= MaxAttempts {
      CountAppends(history, actions, text);
      DistinctCountsOnce(actions, text);
      CountIsPositive(actions, text);
      if Count(actions, text) > 0 {
        var k :| 0 <= k < |actions| && actions[k].text == text;
        AllowedActions(history, actions, k);
      }
    }
    forall i | 0 <= i < |all| ensures all[i].retry <==> Earlier(all, i, all[i].text) {
      RetryMark(history, actions, i);
    }
  }

  lemma {:induction false} RetryMark(history: seq<Attempt>, actions: seq<Attempt>, i: nat)
    requires Budgeted(history) && Distinct(actions) && RetryError(history, actions) == None
    requires i < |history + actions|
    ensures (history + actions)[i].retry <==> Earlier(history + actions, i, (history + actions)[i].text)
  {
    var all := history + actions;
    var text := all[i].text;
    if i < |history| {
      assert all[i] == history[i];
      if j :| 0 <= j < i && all[j].text == text { assert history[j].text == text; }
      if j :| 0 <= j < i && history[j].text == text { assert all[j].text == text; }
    } else {
      var k := i - |history|;
      AllowedActions(history, actions, k);
      CountIsPositive(history, text);
      if j :| 0 <= j < |history| && history[j].text == text { assert all[j].text == text; }
      if j :| 0 <= j < i && all[j].text == text {
        if j >= |history| {
          assert false;
        }
        assert history[j].text == text;
      }
    }
  }

  /** What the executed decisions keep: the action budgets, and no two reviews in a row in target mode. */
  ghost predicate HistoryOk(c: Config, decisions: seq<Decision>) {
    && Budgeted(SearchHistory(decisions)) && Budgeted(FetchHistory(decisions))
    && EachOk(c, decisions)
  }

  predicate EachOk(c: Config, decisions: seq<Decision>) {
    forall k :: 0 <= k < |decisions| ==>
      && |decisions[k].searchActions| <= MaxSearches(c.options)
      && |decisions[k].fetchActions| <= MaxFetches(c.options)
      && (c.options.mode == Some(TargetResults) && k > 0 && decisions[k].kind == Review ==>
            decisions[k - 1].kind != Review)
  }

  /** The parser accepts no decision that repeats a query or a URL. */
  ghost predicate RefusesDuplicates(c: Config) {
    forall value :: c.parse(value).Ok? ==>
      Distinct(SearchesOf(c.parse(value).value)) && Distinct(FetchesOf(c.parse(value).value))
  }

  lemma {:induction false} ParserRefusesDuplicates(c: Config, norm: Norm)
    requires IsUrlNorm(norm) && forall value :: c.parse(value) == Parse(norm, value)
    ensures RefusesDuplicates(c)
  {
    forall value | c.parse(value).Ok?
      ensures Distinct(SearchesOf(c.parse(value).value)) && Distinct(FetchesOf(c.parse(value).value))
    {
      AcceptedIsWellFormed(norm, value);
    }
  }

  lemma {:induction false} AcceptedIsEachOk(c: Config, state: AgentState, reply: Reply)
    requires reply.Completed? && ReadReply(c, state, reply).Ok? && EachOk(c, state.decisions)
    ensures EachOk(c, state.decisions + [ReadReply(c, state, reply).value])
  {
  }

  lemma {:induction false} HistoryAppends(decisions: seq<Decision>, d: Decision)
    ensures SearchHistory(decisions + [d]) == SearchHistory(decisions) + SearchesOf(d)
    ensures FetchHistory(decisions + [d]) == FetchHistory(decisions) + FetchesOf(d)
  {
    assert (decisions + [d])[..|decisions|] == decisions;
  }

  lemma {:induction false} AcceptedRetries(c: Config, state: AgentState, reply: Reply)
    requires RefusesDuplicates(c) && reply.Completed? && ReadReply(c, state, reply).Ok?
    ensures var d := ReadReply(c, state, reply).value;
      && Distinct(SearchesOf(d)) && RetryError(SearchHistory(state.decisions), SearchesOf(d)) == None
      && Distinct(FetchesOf(d)) && RetryError(FetchHistory(state.decisions), FetchesOf(d)) == None
  {
  }

  lemma {:induction false} AcceptedExtendsHistory(c: Config, state: AgentState, reply: Reply)
    requires RefusesDuplicates(c) && reply.Completed? && ReadReply(c, state, reply).Ok?
    requires HistoryOk(c, state.decisions)
    ensures HistoryOk(c, state.decisions + [ReadReply(c, state, reply).value])
  {
    var d := ReadReply(c, state, reply).value;
    AcceptedIsEachOk(c, state, reply);
    AcceptedRetries(c, state, reply);
    HistoryAppends(state.decisions, d);
    AllowedKeepsBudget(SearchHistory(state.decisions), SearchesOf(d));
    AllowedKeepsBudget(FetchHistory(state.decisions), FetchesOf(d));
  }

  /** `after` is what a turn makes of `state.decisions`. */
  ghost predicate Extends(c: Config, state: AgentState, reply: Reply, after: seq<Decision>) {
    || after == state.decisions
    || (reply.Completed? && ReadReply(c, state, reply).Ok? && after == state.decisions + [ReadReply(c, state, reply).value])
  }

  lemma {:induction false} StepExtends(c: Config, loop: Loop, turn: Turn)
    ensures var out := Step(c, loop, turn);
      && (out.Continue? ==> Extends(c, loop.state, turn.reply, out.loop.state.decisions))
      && (out.Return? ==> Extends(c, loop.state, turn.reply, out.result.state.decisions))
  {
  }

  lemma {:induction false} ExtensionKeepsHistory(c: Config, state: AgentState, reply: Reply, after: seq<Decision>)
    requires RefusesDuplicates(c) && HistoryOk(c, state.decisions) && Extends(c, state, reply, after)
    ensures HistoryOk(c, after)
  {
    if after != state.decisions {
      AcceptedExtendsHistory(c, state, reply);
    }
  }

  lemma {:induction false} HistoryAlwaysOk(c: Config, env: Environment, n: nat)
    requires RefusesDuplicates(c) && Before(c, env, n).Some?
    ensures HistoryOk(c, Before(c, env, n).value.state.decisions)
  {
    if n > 0 {
      HistoryAlwaysOk(c, env, n - 1);
      var loop := Before(c, env, n - 1).value;
      StepExtends(c, loop, env(n - 1));
      ExtensionKeepsHistory(c, loop.state, env(n - 1).reply, Before(c, env, n).value.state.decisions);
    }
  }

  /**
   In every run each exact query and each exact URL is attempted at most three times,
   unmarked the first time and marked as a retry every later time.
   */
  lemma {:induction false} ExactActionBudget(c: Config, norm: Norm, env: Environment)
    requires IsUrlNorm(norm) && forall value :: c.parse(value) == Parse(norm, value)
    ensures HistoryOk(c, Run(c, env).state.decisions)
  {
    ParserRefusesDuplicates(c, norm);
    var n, loop := RunEndsFrom(c, env, 0, InitialLoop());
    HistoryAlwaysOk(c, env, n);
    StepExtends(c, loop, env(n));
    ExtensionKeepsHistory(c, loop.state, env(n).reply, EndingAt(c, env, n, loop).state.decisions);
  }

  // ---------------------------------------------------------------------------
  // Executing: action order, all or nothing
  // ---------------------------------------------------------------------------

  lemma {:induction false} SettledInOrder<T>(replies: nat -> Option<T>, n: nat)
    ensures Settle(replies, n).Some? <==> forall k :: 0 <= k < n ==> replies(k).Some?
    ensures Settle(replies, n).Some? ==>
      |Settle(replies, n).value| == n && forall k :: 0 <= k < n ==> Settle(replies, n).value[k] == replies(k).value
  {
    if n > 0 {
      SettledInOrder(replies, n - 1);
    }
  }

  /** Pages are appended one per fetch action, in action order, and not at all when one was aborted. */
  lemma {:induction false} ExecuteAppendsInOrder(state: AgentState, d: Decision, turn: Turn)
    ensures Execute(state, d, turn).Some? <==>
      (forall k :: 0 <= k < |d.searchActions| ==> turn.searches(k).Some?) &&
      (forall k :: 0 <= k < |d.fetchActions| ==> turn.fetches(k).Some?)
    ensures var next := Execute(state, d, turn);
      next.Some? ==>
        && state.searchResults <= next.value.searchResults && state.fetchedPages <= next.value.fetchedPages
        && |next.value.fetchedPages| == |state.fetchedPages| + |d.fetchActions|
        && forall k :: 0 <= k < |d.fetchActions| ==>
             next.value.fetchedPages[|state.fetchedPages| + k] == turn.fetches(k).value
  {
    SettledInOrder(turn.searches, |d.searchActions|);
    SettledInOrder(turn.fetches, |d.fetchActions|);
  }

  lemma {:induction false} AcceptFetchesOnce(state: AgentState, d: Decision, turn: Turn)
    requires |state.fetchedPages| == |FetchHistory(state.decisions)|
    ensures var next := Execute(state, d, turn);
      next.Some? ==> |next.value.fetchedPages| == |FetchHistory(next.value.decisions)|
  {
    ExecuteAppendsInOrder(state, d, turn);
    assert (state.decisions + [d])[..|state.decisions|] == state.decisions;
  }

  lemma {:induction false} StepFetchesOnce(c: Config, loop: Loop, turn: Turn)
    requires |loop.state.fetchedPages| == |FetchHistory(loop.state.decisions)| && Step(c, loop, turn).Continue?
    ensures var state := Step(c, loop, turn).loop.state; |state.fetchedPages| == |FetchHistory(state.decisions)|
  {
    if turn.reply.Completed? && ReadReply(c, loop.state, turn.reply).Ok? {
      AcceptFetchesOnce(loop.state, ReadReply(c, loop.state, turn.reply).value, turn);
    }
  }

  /** In every run there is one page for each executed fetch action. */
  lemma {:induction false} OnePagePerFetch(c: Config, env: Environment, n: nat)
    requires Before(c, env, n).Some?
    ensures var state := Before(c, env, n).value.state; |state.fetchedPages| == |FetchHistory(state.decisions)|
  {
    if n > 0 {
      OnePagePerFetch(c, env, n - 1);
      StepFetchesOnce(c, Before(c, env, n - 1).value, env(n - 1));
    }
  }
}
