/**
 What each answer of the model makes of a research run, told from the decisions, the
 marks of its actions, the findings and the pages, and without the gate of the loop.
 */
module LoopOutcomes {
  import opened Wrappers
  import opened DecisionProtocol
  import opened Citations
  import opened CitationCounts
  import opened AgentLoop

  /** The limits of a valid task are those it gives; without them they are 100, 8, 8 and 1. */
  lemma {:induction false} OptionsAreTakenAsGiven(o: Options)
    requires ValidOptions(o)
    ensures MaxIterations(o) == if o.maxIterations.Some? then o.maxIterations.value else 100
    ensures MaxSearches(o) == if o.maxSearchActionsPerTurn.Some? then o.maxSearchActionsPerTurn.value else 8
    ensures MaxFetches(o) == if o.maxFetchActionsPerTurn.Some? then o.maxFetchActionsPerTurn.value else 8
    ensures TargetCount(o) == if o.targetResultCount.Some? then o.targetResultCount.value else 1
    ensures MinFetched(o) == match o.minFetchedPages
      case Some(pages) => pages
      case None => if o.evidenceRequired && o.targetResultCount.Some? then o.targetResultCount.value else 1
    ensures MaxCalls(o) == 2 * MaxIterations(o) + 2
  {
  }

  // ---------------------------------------------------------------------------
  // The history of actions
  // ---------------------------------------------------------------------------

  function Total<T>(lists: seq<seq<T>>): nat {
    if lists == [] then 0 else Total(lists[..|lists| - 1]) + |lists[|lists| - 1]|
  }

  lemma {:induction false} FlattenLength<T>(lists: seq<seq<T>>)
    ensures |Flatten(lists)| == Total(lists)
    decreases |lists|
  {
    if lists != [] {
      FlattenLength(lists[..|lists| - 1]);
    }
  }

  ghost predicate StandsAt<T>(whole: seq<T>, start: nat, piece: seq<T>) {
    start + |piece| <= |whole| && whole[start..start + |piece|] == piece
  }

  lemma {:induction false} StandsInLonger<T>(whole: seq<T>, start: nat, piece: seq<T>, before: seq<T>, after: seq<T>)
    requires StandsAt(whole, start, piece)
    ensures StandsAt(before + whole + after, |before| + start, piece)
  {
    var longer := before + whole + after;
    assert longer[|before| + start..|before| + start + |piece|] == whole[start..start + |piece|];
  }

  /** `Flatten` puts the lists one after the other. */
  lemma {:induction false} FlattenKeepsPieces<T>(lists: seq<seq<T>>, k: nat)
    requires k < |lists|
    ensures StandsAt(Flatten(lists), Total(lists[..k]), lists[k])
    decreases |lists|
  {
    var n := |lists| - 1;
    var init := lists[..n];
    if k < n {
      FlattenKeepsPieces(init, k);
      assert init[..k] == lists[..k];
      StandsInLonger(Flatten(init), Total(lists[..k]), lists[k], [], lists[n]);
      assert [] + Flatten(init) + lists[n] == Flatten(lists);
    } else {
      FlattenLength(init);
    }
  }

  lemma {:induction false} AppendedPieces<T>(before: seq<T>, lists: seq<seq<T>>, k: nat)
    requires k < |lists|
    ensures StandsAt(before + Flatten(lists), |before| + Total(lists[..k]), lists[k])
  {
    FlattenKeepsPieces(lists, k);
    StandsInLonger(Flatten(lists), Total(lists[..k]), lists[k], before, []);
    assert before + Flatten(lists) + [] == before + Flatten(lists);
  }

  function SearchLists(decisions: seq<Decision>): seq<seq<Attempt>> {
    seq(|decisions|, i requires 0 <= i < |decisions| => SearchesOf(decisions[i]))
  }

  function FetchLists(decisions: seq<Decision>): seq<seq<Attempt>> {
    seq(|decisions|, i requires 0 <= i < |decisions| => FetchesOf(decisions[i]))
  }

  lemma {:induction false} SearchHistoryIsFlat(decisions: seq<Decision>)
    ensures SearchHistory(decisions) == Flatten(SearchLists(decisions))
    decreases |decisions|
  {
    if decisions != [] {
      var n := |decisions| - 1;
      SearchHistoryIsFlat(decisions[..n]);
      assert SearchLists(decisions)[..n] == SearchLists(decisions[..n]);
    }
  }

  lemma {:induction false} FetchHistoryIsFlat(decisions: seq<Decision>)
    ensures FetchHistory(decisions) == Flatten(FetchLists(decisions))
    decreases |decisions|
  {
    if decisions != [] {
      var n := |decisions| - 1;
      FetchHistoryIsFlat(decisions[..n]);
      assert FetchLists(decisions)[..n] == FetchLists(decisions[..n]);
    }
  }

  /** The history of searches is every search of every decision: those of decision `i` follow those of the ones before. */
  lemma {:induction false} SearchHistoryIsEveryAction(decisions: seq<Decision>, i: nat)
    requires i < |decisions|
    ensures |SearchHistory(decisions)| == Total(SearchLists(decisions))
    ensures var start := Total(SearchLists(decisions)[..i]); var actions := decisions[i].searchActions;
      && start + |actions| <= |SearchHistory(decisions)|
      && forall k :: 0 <= k < |actions| ==>
           SearchHistory(decisions)[start + k] == Attempt(actions[k].query, actions[k].retry)
  {
    var lists, actions := SearchLists(decisions), decisions[i].searchActions;
    SearchHistoryIsFlat(decisions);
    FlattenLength(lists);
    FlattenKeepsPieces(lists, i);
    PieceElements(SearchHistory(decisions), Total(lists[..i]), lists[i]);
    forall k | 0 <= k < |actions|
      ensures SearchHistory(decisions)[Total(lists[..i]) + k] == Attempt(actions[k].query, actions[k].retry)
    {
      assert lists[i][k] == Attempt(actions[k].query, actions[k].retry);
    }
  }

  /** The same for the fetches. */
  lemma {:induction false} FetchHistoryIsEveryAction(decisions: seq<Decision>, i: nat)
    requires i < |decisions|
    ensures |FetchHistory(decisions)| == Total(FetchLists(decisions))
    ensures var start := Total(FetchLists(decisions)[..i]); var actions := decisions[i].fetchActions;
      && start + |actions| <= |FetchHistory(decisions)|
      && forall k :: 0 <= k < |actions| ==>
           FetchHistory(decisions)[start + k] == Attempt(actions[k].url, actions[k].retry)
  {
    var lists, actions := FetchLists(decisions), decisions[i].fetchActions;
    FetchHistoryIsFlat(decisions);
    FlattenLength(lists);
    FlattenKeepsPieces(lists, i);
    PieceElements(FetchHistory(decisions), Total(lists[..i]), lists[i]);
    forall k | 0 <= k < |actions|
      ensures FetchHistory(decisions)[Total(lists[..i]) + k] == Attempt(actions[k].url, actions[k].retry)
    {
      assert lists[i][k] == Attempt(actions[k].url, actions[k].retry);
    }
  }

  lemma {:induction false} PieceElements<T>(whole: seq<T>, start: nat, piece: seq<T>)
    requires StandsAt(whole, start, piece)
    ensures forall k :: 0 <= k < |piece| ==> whole[start + k] == piece[k]
  {
    forall k | 0 <= k < |piece| ensures whole[start + k] == piece[k] {
      assert whole[start..start + |piece|][k] == whole[start + k];
    }
  }

  predicate Occurs(history: seq<Attempt>, text: string) {
    exists i :: 0 <= i < |history| && history[i].text == text
  }

  /** `text` stands at some place and also before it. */
  predicate OccursTwice(history: seq<Attempt>, text: string) {
    exists i :: 0 <= i < |history| && history[i].text == text && Occurs(history[..i], text)
  }

  predicate OccursThrice(history: seq<Attempt>, text: string) {
    exists i :: 0 <= i < |history| && history[i].text == text && OccursTwice(history[..i], text)
  }

  lemma {:induction false} OccursOnLast(history: seq<Attempt>, text: string)
    requires history != []
    ensures Occurs(history, text) <==> Occurs(history[..|history| - 1], text) || history[|history| - 1].text == text
  {
    var n := |history| - 1;
    var init := history[..n];
    if i :| 0 <= i < |history| && history[i].text == text {
      if i < n { assert init[i].text == text; }
    }
    if i :| 0 <= i < n && init[i].text == text { assert history[i].text == text; }
  }

  lemma {:induction false} TwiceOnLast(history: seq<Attempt>, text: string)
    requires history != []
    ensures var init, last := history[..|history| - 1], history[|history| - 1].text == text;
      OccursTwice(history, text) <==> OccursTwice(init, text) || (last && Occurs(init, text))
  {
    var n := |history| - 1;
    var init := history[..n];
    assert forall i :: 0 <= i < n ==> init[i] == history[i] && init[..i] == history[..i];
  }

  lemma {:induction false} ThriceOnLast(history: seq<Attempt>, text: string)
    requires history != []
    ensures var init, last := history[..|history| - 1], history[|history| - 1].text == text;
      OccursThrice(history, text) <==> OccursThrice(init, text) || (last && OccursTwice(init, text))
  {
    var n := |history| - 1;
    var init := history[..n];
    assert forall i :: 0 <= i < n ==> init[i] == history[i] && init[..i] == history[..i];
  }

  lemma {:induction false} CountMeans(history: seq<Attempt>, text: string)
    ensures Count(history, text) >= 1 <==> Occurs(history, text)
    ensures Count(history, text) >= 2 <==> OccursTwice(history, text)
    ensures Count(history, text) >= 3 <==> OccursThrice(history, text)
  {
    if history != [] {
      CountMeans(history[..|history| - 1], text);
      OccursOnLast(history, text);
      TwiceOnLast(history, text);
      ThriceOnLast(history, text);
    }
  }

  /** An action is marked as a retry exactly when it was attempted before, and was attempted less than three times. */
  predicate MarkedRight(history: seq<Attempt>, action: Attempt) {
    (action.retry <==> Occurs(history, action.text)) && !OccursThrice(history, action.text)
  }

  /** What is wrong with the mark of an action. */
  predicate Complains(history: seq<Attempt>, action: Attempt, error: LoopError) {
    || (error == FirstAttemptMarkedRetry && !Occurs(history, action.text) && action.retry)
    || (error == RetryRequired && Occurs(history, action.text) && !action.retry)
    || (error == RetryLimitExceeded && OccursThrice(history, action.text) && action.retry)
  }

  /** There is a complaint exactly when some action is marked wrong, and it is about the first of these. */
  lemma {:induction false} RetryErrorIsTheFirst(history: seq<Attempt>, actions: seq<Attempt>) returns (k: nat)
    ensures k <= |actions| && forall i :: 0 <= i < k ==> MarkedRight(history, actions[i])
    ensures RetryError(history, actions).None? <==> k == |actions|
    ensures k < |actions| ==>
      !MarkedRight(history, actions[k]) && Complains(history, actions[k], RetryError(history, actions).value)
    decreases |actions|
  {
    if actions == [] {
      k := 0;
    } else {
      CountMeans(history, actions[0].text);
      if MarkedRight(history, actions[0]) {
        k := RetryErrorIsTheFirst(history, actions[1..]);
        k := k + 1;
      } else {
        k := 0;
      }
    }
  }

  // ---------------------------------------------------------------------------
  // Reading an answer
  // ---------------------------------------------------------------------------

  predicate AllMarkedRight(history: seq<Attempt>, actions: seq<Attempt>) {
    forall i :: 0 <= i < |actions| ==> MarkedRight(history, actions[i])
  }

  predicate ReviewsAgain(c: Config, state: AgentState, d: Decision) {
    && c.options.mode == Some(TargetResults) && d.kind == Review
    && state.decisions != [] && state.decisions[|state.decisions| - 1].kind == Review
  }

  predicate WithinTurnLimits(c: Config, d: Decision) {
    |d.searchActions| <= MaxSearches(c.options) && |d.fetchActions| <= MaxFetches(c.options)
  }

  /** Everything a decision must meet beyond being accepted by the parser. */
  predicate Acceptable(c: Config, state: AgentState, d: Decision) {
    && AllMarkedRight(SearchHistory(state.decisions), SearchesOf(d))
    && AllMarkedRight(FetchHistory(state.decisions), FetchesOf(d))
    && !ReviewsAgain(c, state, d) && WithinTurnLimits(c, d)
  }

  /** The completion gives a decision that the parser accepts. */
  predicate Gives(c: Config, reply: Reply, d: Decision) {
    && reply.Completed? && !reply.protocolError && !reply.cutOff && reply.text.Some?
    && c.parse(reply.text.value) == Ok(d)
  }

  /** A completion is accepted exactly when it gives a decision and that is acceptable. */
  lemma {:induction false} AcceptedExactlyIf(c: Config, state: AgentState, reply: Reply, d: Decision)
    requires reply.Completed?
    ensures ReadReply(c, state, reply) == Ok(d) <==> Gives(c, reply, d) && Acceptable(c, state, d)
  {
    if Gives(c, reply, d) {
      var k := RetryErrorIsTheFirst(SearchHistory(state.decisions), SearchesOf(d));
      var j := RetryErrorIsTheFirst(FetchHistory(state.decisions), FetchesOf(d));
    }
  }

  /** A completion that gives no decision is rejected for the first reason that applies. */
  lemma {:induction false} UnreadableOutcome(c: Config, state: AgentState, reply: Reply)
    requires reply.Completed?
    ensures reply.protocolError ==> ReadReply(c, state, reply) == Err(AdapterProtocolError)
    ensures !reply.protocolError && reply.cutOff ==> ReadReply(c, state, reply) == Err(IncompleteResponse)
    ensures !reply.protocolError && !reply.cutOff && reply.text.None? ==> ReadReply(c, state, reply) == Err(InvalidJson)
    ensures !reply.protocolError && !reply.cutOff && reply.text.Some? && c.parse(reply.text.value).Err? ==>
      ReadReply(c, state, reply) == Err(Rejected(c.parse(reply.text.value).error.code))
  {
  }

  /**
   A decision that is not acceptable is rejected for a mark of its searches, then for one of
   its fetches, then for a repeated review, then for its number of actions.
   */
  lemma {:induction false} UnacceptableOutcome(c: Config, state: AgentState, reply: Reply, d: Decision)
    requires Gives(c, reply, d) && !Acceptable(c, state, d)
    ensures var searched, fetched := SearchHistory(state.decisions), FetchHistory(state.decisions);
      ReadReply(c, state, reply).Err? &&
      var error := ReadReply(c, state, reply).error;
      if !AllMarkedRight(searched, SearchesOf(d)) then
        exists k :: 0 <= k < |d.searchActions| && AllMarkedRight(searched, SearchesOf(d)[..k])
                    && Complains(searched, SearchesOf(d)[k], error)
      else if !AllMarkedRight(fetched, FetchesOf(d)) then
        exists k :: 0 <= k < |d.fetchActions| && AllMarkedRight(fetched, FetchesOf(d)[..k])
                    && Complains(fetched, FetchesOf(d)[k], error)
      else if ReviewsAgain(c, state, d) then error == NoProgressReview
      else error == ActionBudgetExceeded
  {
    var k := RetryErrorIsTheFirst(SearchHistory(state.decisions), SearchesOf(d));
    var j := RetryErrorIsTheFirst(FetchHistory(state.decisions), FetchesOf(d));
  }

  // ---------------------------------------------------------------------------
  // A finish
  // ---------------------------------------------------------------------------

  /** Some citation leads to page `k`: it was the last one fetched with content under that URL, and has a URL to show. */
  ghost predicate CitesPage(canon: Canon, cited: seq<string>, pages: seq<Page>, k: nat) {
    k < |pages| && IsMatched(canon, cited, pages, k)
  }

  /** The finding is confirmed and, where evidence is required, cites a fetched page. */
  ghost predicate IsConfirmed(c: Config, f: Finding, pages: seq<Page>) {
    && f.disposition == Confirmed
    && (c.options.evidenceRequired ==> exists k :: CitesPage(c.canon, f.evidenceUrls, pages, k))
  }

  /** The target number of findings, at different places of the list, is confirmed. */
  ghost predicate EnoughConfirmed(c: Config, d: Decision, pages: seq<Page>) {
    exists at :: IsTarget(c, d, pages, at)
  }

  ghost predicate IsTarget(c: Config, d: Decision, pages: seq<Page>, at: seq<nat>) {
    && Increasing(at) && |at| == TargetCount(c.options)
    && forall i :: 0 <= i < |at| ==> at[i] < |d.findings| && IsConfirmed(c, d.findings[at[i]], pages)
  }

  ghost predicate EnoughCited(c: Config, d: Decision, pages: seq<Page>) {
    c.options.evidenceRequired ==> |MatchedUrls(c.canon, d.evidenceUrls, pages)| >= MinFetched(c.options)
  }

  /** What a task asks of a finish. */
  ghost predicate Deserved(c: Config, d: Decision, state: AgentState) {
    && EnoughCited(c, d, state.fetchedPages)
    && match c.options.mode
       case None => true
       case Some(Rounds) => state.currentIteration == MaxIterations(c.options)
       case Some(TargetResults) => EnoughConfirmed(c, d, state.fetchedPages)
  }

  lemma {:induction false} ShownPageMatches(canon: Canon, cited: seq<string>, pages: seq<Page>)
    ensures (exists k :: CitesPage(canon, cited, pages, k)) <==> |MatchedUrls(canon, cited, pages)| > 0
  {
    if |MatchedUrls(canon, cited, pages)| > 0 {
      var k, key := EntryShows(canon, cited, pages, 0);
      assert CitesPage(canon, cited, pages, k);
    }
    if k :| CitesPage(canon, cited, pages, k) {
      var key :| StandsFor(canon, cited, pages, k, key);
      ShownIs(canon, cited, pages, k, key);
      ResultCountsCanonicalCitations(canon, cited, pages);
      var fetched := Fetched(canon, pages);
      var i :| 0 <= i < |cited| && Key(canon, cited[i]) == Some(key);
      assert Matches(canon, fetched, cited[i]);
      assert key in Counted(canon, fetched, cited);
    }
  }

  lemma {:induction false} CountsIsConfirmed(c: Config, f: Finding, pages: seq<Page>)
    ensures Counts(c, f, pages) <==> IsConfirmed(c, f, pages)
  {
    ShownPageMatches(c.canon, f.evidenceUrls, pages);
  }

  /** Findings that are backed are counted: as many places, as many validated findings. */
  lemma {:induction false} BackedAreValidated(c: Config, findings: seq<Finding>, pages: seq<Page>, at: seq<nat>)
    requires Increasing(at) && forall i :: 0 <= i < |at| ==> at[i] < |findings| && IsConfirmed(c, findings[at[i]], pages)
    ensures |ValidatedFindings(c, findings, pages)| >= |at|
    decreases |findings|
  {
    if at != [] {
      assert at[0] < |findings|;
      CountsIsConfirmed(c, findings[0], pages);
      var later := if at[0] == 0 then at[1..] else at;
      var rest: seq<nat> := seq(|later|, i requires 0 <= i < |later| => if later[i] > 0 then later[i] - 1 else 0);
      forall i | 0 <= i < |later| ensures later[i] > 0 {
        if at[0] == 0 { assert at[0] < at[i + 1]; }
      }
      forall i, k | 0 <= i < k < |rest| ensures rest[i] < rest[k] { assert later[i] < later[k]; }
      BackedAreValidated(c, findings[1..], pages, rest);
    }
  }

  lemma {:induction false} GateCountsFindings(c: Config, d: Decision, pages: seq<Page>)
    ensures |ValidatedFindings(c, d.findings, pages)| >= TargetCount(c.options) <==> EnoughConfirmed(c, d, pages)
  {
    if |ValidatedFindings(c, d.findings, pages)| >= TargetCount(c.options) {
      var all := ValidatedAt(c, d.findings, pages);
      var at := all[..TargetCount(c.options)];
      forall i | 0 <= i < |at| ensures IsConfirmed(c, d.findings[at[i]], pages) {
        CountsIsConfirmed(c, d.findings[all[i]], pages);
      }
      assert IsTarget(c, d, pages, at);
    }
    if at :| IsTarget(c, d, pages, at) {
      BackedAreValidated(c, d.findings, pages, at);
    }
  }

  /** The gate lets through exactly what the task asks for. */
  lemma {:induction false} GateIsDeserved(c: Config, d: Decision, state: AgentState)
    requires state.currentIteration <= MaxIterations(c.options)
    ensures CompletionReached(c, d, state) <==> Deserved(c, d, state)
  {
    GateCountsFindings(c, d, state.fetchedPages);
  }

  /** The notes say what the decision is uncertain about, in its order. */
  ghost predicate Restates(notes: seq<Note>, texts: seq<string>) {
    |notes| == |texts| && forall k :: 0 <= k < |texts| ==> notes[k] == Stated(texts[k])
  }

  predicate Undisturbed(turn: Turn) {
    turn.abortedBefore.None? && turn.abortedAfter.None? && turn.reply.Completed?
  }

  /** Call `n` is made: the loop has come to it and does not stop before it. */
  ghost predicate CallIsMade(c: Config, env: Environment, n: nat, loop: Loop) {
    && n < MaxCalls(c.options) && Before(c, env, n) == Some(loop)
    && (loop.state.currentIteration < MaxIterations(c.options) || c.options.mode.Some? || c.options.evidenceRequired)
  }

  /** Call `n` is answered by the acceptable decision `d`. */
  ghost predicate Answered(c: Config, env: Environment, n: nat, loop: Loop, d: Decision) {
    CallIsMade(c, env, n, loop) && Undisturbed(env(n)) && Gives(c, env(n).reply, d) && Acceptable(c, loop.state, d)
  }

  /**
   A finish that gives the task what it asks for ends the run as finished: without a mode at
   any time, in rounds mode when all rounds are done, in target mode with enough findings,
   and in each case with enough cited pages where evidence is required. Any other finish
   ends the run as interrupted, because the rounds are used up or before that.
   */
  lemma {:induction false} FinishOutcome(c: Config, env: Environment, n: nat, loop: Loop, d: Decision)
    requires Answered(c, env, n, loop, d) && d.kind == Finish
    ensures var r, asked := Run(c, env), Deserved(c, d, loop.state);
      var next := loop.state.(decisions := loop.state.decisions + [d], finalAnswer := d.finalAnswer);
      && r.decision == d && Restates(Notes(d.uncertainties), d.uncertainties)
      && (asked ==> r.status == Finished && r.state == next)
      && (!asked ==>
            && r.status == Interrupted
            && r.state.interrupted == Some(if loop.state.currentIteration < MaxIterations(c.options)
                                           then CompletionNotReached else IterationsUsed)
            && r.state.uncertainties == loop.state.uncertainties + Notes(d.uncertainties) + [CompletionGap]
            && r.state == next.(interrupted := r.state.interrupted, uncertainties := r.state.uncertainties))
  {
    AlwaysPaid(c, env, n);
    AcceptedExactlyIf(c, loop.state, env(n).reply, d);
    GateIsDeserved(c, d, loop.state);
    RunEndsWith(c, env, n, loop);
  }

  /** A run is finished exactly when some call is answered by a finish that gives the task what it asks for. */
  lemma {:induction false} FinishedExactlyIf(c: Config, env: Environment)
    ensures Run(c, env).status == Finished <==>
      exists n, loop, d :: Answered(c, env, n, loop, d) && d.kind == Finish && Deserved(c, d, loop.state)
  {
    FinishedIff(c, env);
    if Run(c, env).status == Finished {
      var n, loop :| FinishesAt(c, env, n, loop);
      var d := ReadReply(c, loop.state, env(n).reply).value;
      AlwaysPaid(c, env, n);
      AcceptedExactlyIf(c, loop.state, env(n).reply, d);
      GateIsDeserved(c, d, loop.state);
      assert Answered(c, env, n, loop, d);
    }
    if n: nat, loop, d :| Answered(c, env, n, loop, d) && d.kind == Finish && Deserved(c, d, loop.state) {
      FinishOutcome(c, env, n, loop, d);
    }
  }

  /** A finished run in rounds mode has done all its rounds: one decision for each, and the finish. */
  lemma {:induction false} FinishedRunsDoAllRounds(c: Config, env: Environment)
    requires Run(c, env).status == Finished && c.options.mode == Some(Rounds)
    ensures var state := Run(c, env).state;
      && state.currentIteration == MaxIterations(c.options)
      && |state.decisions| == MaxIterations(c.options) + 1
      && forall i :: 0 <= i < |state.decisions| ==> (state.decisions[i].kind == Finish <==> i == MaxIterations(c.options))
  {
    FinishedExactlyIf(c, env);
    var n: nat, loop, d :| Answered(c, env, n, loop, d) && d.kind == Finish && Deserved(c, d, loop.state);
    FinishOutcome(c, env, n, loop, d);
    AlwaysPaid(c, env, n);
    OnlyWorkBefore(c, env, n);
  }

  lemma {:induction false} WorkStep(c: Config, loop: Loop, turn: Turn)
    requires forall i :: 0 <= i < |loop.state.decisions| ==> loop.state.decisions[i].kind != Finish
    requires Step(c, loop, turn).Continue?
    ensures var next := Step(c, loop, turn).loop.state;
      forall i :: 0 <= i < |next.decisions| ==> next.decisions[i].kind != Finish
  {
  }

  /** No decision of a run that goes on is a finish. */
  lemma {:induction false} OnlyWorkBefore(c: Config, env: Environment, n: nat)
    requires Before(c, env, n).Some?
    ensures var state := Before(c, env, n).value.state;
      forall i :: 0 <= i < |state.decisions| ==> state.decisions[i].kind != Finish
  {
    if n > 0 {
      OnlyWorkBefore(c, env, n - 1);
      WorkStep(c, Before(c, env, n - 1).value, env(n - 1));
    }
  }

  // ---------------------------------------------------------------------------
  // Work
  // ---------------------------------------------------------------------------

  predicate AllAnswered<T>(replies: nat -> Option<T>, n: nat) {
    forall k :: 0 <= k < n ==> replies(k).Some?
  }

  /** The hits of the first `n` searches. */
  function HitLists(turn: Turn, n: nat): seq<seq<Hit>>
    requires AllAnswered(turn.searches, n)
  {
    seq(n, k requires 0 <= k < n => turn.searches(k).value)
  }

  /**
   The search results grow by the hits of each search, in the order of the actions: those
   of search `k` follow those of the searches before it.
   */
  lemma {:induction false} SearchResultsGrowInOrder(state: AgentState, d: Decision, turn: Turn, k: nat)
    requires AllAnswered(turn.searches, |d.searchActions|) && AllAnswered(turn.fetches, |d.fetchActions|)
    requires k < |d.searchActions|
    ensures Execute(state, d, turn).Some?
    ensures var before, after := state.searchResults, Execute(state, d, turn).value.searchResults;
      && before <= after && |after| == |before| + Total(HitLists(turn, |d.searchActions|))
      && StandsAt(after, |before| + Total(HitLists(turn, k)), turn.searches(k).value)
  {
    ExecuteAppendsInOrder(state, d, turn);
    SettledInOrder(turn.searches, |d.searchActions|);
    var lists := HitLists(turn, |d.searchActions|);
    assert Settle(turn.searches, |d.searchActions|).value == lists;
    assert lists[..k] == HitLists(turn, k);
    FlattenLength(lists);
    AppendedPieces(state.searchResults, lists, k);
  }

  /** What a turn that executes `d` leaves: everything but the search results and pages, which grow in action order. */
  ghost predicate Executed(state: AgentState, d: Decision, turn: Turn, next: AgentState)
    requires AllAnswered(turn.fetches, |d.fetchActions|)
  {
    && next == AgentState(state.currentIteration + 1, state.decisions + [d], next.searchResults, next.fetchedPages,
                          state.uncertainties + Notes(d.uncertainties), d.finalAnswer, state.interrupted)
    && Restates(Notes(d.uncertainties), d.uncertainties)
    && state.fetchedPages <= next.fetchedPages && |next.fetchedPages| == |state.fetchedPages| + |d.fetchActions|
    && (forall k :: 0 <= k < |d.fetchActions| ==>
          next.fetchedPages[|state.fetchedPages| + k] == turn.fetches(k).value)
    && state.searchResults <= next.searchResults
  }

  /**
   Work that is asked for below the cap is executed and the loop goes on with its outcome,
   unless the signal aborts an action, which ends the run with nothing of the turn kept.
   */
  lemma {:induction false} WorkOutcome(c: Config, env: Environment, n: nat, loop: Loop, d: Decision)
    requires Answered(c, env, n, loop, d) && d.kind != Finish && loop.state.currentIteration < MaxIterations(c.options)
    ensures var turn := env(n);
      if AllAnswered(turn.searches, |d.searchActions|) && AllAnswered(turn.fetches, |d.fetchActions|) then
        && Before(c, env, n + 1).Some?
        && var next := Before(c, env, n + 1).value;
           next == Loop(next.state, d, None, 0) && Executed(loop.state, d, turn, next.state)
      else Run(c, env) == AgentResult(Interrupt(loop.state, Aborted(turn.abortedDuring)), d, Interrupted)
  {
    AcceptedExactlyIf(c, loop.state, env(n).reply, d);
    ExecuteAppendsInOrder(loop.state, d, env(n));
    if Execute(loop.state, d, env(n)).Some? {
      NextBefore(c, env, n, loop);
    } else {
      RunEndsWith(c, env, n, loop);
    }
  }

  /** Work that is asked for at the cap is refused, and the model is asked once more. */
  lemma {:induction false} WorkAtTheCapOutcome(c: Config, env: Environment, n: nat, loop: Loop, d: Decision)
    requires Answered(c, env, n, loop, d) && d.kind != Finish && loop.state.currentIteration == MaxIterations(c.options)
    ensures Before(c, env, n + 1) == Some(Loop(loop.state, d, Some(RoundLimitReached), 1))
  {
    AcceptedExactlyIf(c, loop.state, env(n).reply, d);
    NextBefore(c, env, n, loop);
  }

  // ---------------------------------------------------------------------------
  // Disturbances
  // ---------------------------------------------------------------------------

  /** A completion that is rejected is answered by one more call; a second one in a row ends the run as failed. */
  lemma {:induction false} RejectionOutcome(c: Config, env: Environment, n: nat, loop: Loop)
    requires CallIsMade(c, env, n, loop) && Undisturbed(env(n)) && ReadReply(c, loop.state, env(n).reply).Err?
    ensures var error := ReadReply(c, loop.state, env(n).reply).error;
      if loop.recoveries == 0 then
        Before(c, env, n + 1) == Some(Loop(loop.state, loop.lastDecision, Some(error), 1))
      else Run(c, env) == AgentResult(Interrupt(loop.state, ProtocolFailure), loop.lastDecision, Failed)
  {
    AlwaysPaid(c, env, n);
    if loop.recoveries == 0 {
      NextBefore(c, env, n, loop);
    } else {
      RunEndsWith(c, env, n, loop);
    }
  }

  /**
   A signal that is aborted before or during a call interrupts the run with its cause, also
   when the call throws. A call that throws otherwise interrupts it as timed out or fails it.
   */
  lemma {:induction false} DisturbedOutcome(c: Config, env: Environment, n: nat, loop: Loop)
    requires CallIsMade(c, env, n, loop) && !Undisturbed(env(n))
    ensures var turn := env(n);
      var (reason, status) :=
        if turn.abortedBefore.Some? then (Aborted(turn.abortedBefore.value), Interrupted)
        else if turn.abortedAfter.Some? then (Aborted(turn.abortedAfter.value), Interrupted)
        else if turn.reply.timedOut then (ModelTimeout, Interrupted)
        else (ProviderError, Failed);
      Run(c, env) == AgentResult(Interrupt(loop.state, reason), loop.lastDecision, status)
  {
    RunEndsWith(c, env, n, loop);
  }
}
