/** `runResearchAgent` and `executeAgentActions` in their own form, refining the loop's steps. */
module ResearchAgent {
  import opened Wrappers
  import opened DecisionProtocol
  import opened Citations
  import opened AgentLoop

  datatype TaskError = InvalidOption

  /** Waits for a whole batch; the values in action order, or None when one was rejected. */
  method SettleActionBatch<T>(replies: nat -> Option<T>, n: nat) returns (r: Option<seq<T>>)
    ensures r == Settle(replies, n)
  {
    var values: seq<T> := [];
    var rejected := false;
    for i := 0 to n
      invariant Settle(replies, i) == if rejected then None else Some(values)
    {
      var reply := replies(i);
      if reply.None? {
        rejected := true;
      } else if !rejected {
        values := values + [reply.value];
      }
    }
    r := if rejected then None else Some(values);
  }

  method ExecuteAgentActions(state: AgentState, d: Decision, turn: Turn) returns (r: Option<AgentState>)
    ensures r == Execute(state, d, turn)
  {
    var searchResults, fetchedPages := state.searchResults, state.fetchedPages;
    var responses := SettleActionBatch(turn.searches, |d.searchActions|);
    if responses.None? { return None; }
    var i := 0;
    while i < |responses.value|
      invariant 0 <= i <= |responses.value|
      invariant searchResults == state.searchResults + Flatten(responses.value[..i])
    {
      assert responses.value[..i + 1][..i] == responses.value[..i];
      searchResults := searchResults + responses.value[i];
      i := i + 1;
    }
    assert responses.value[..i] == responses.value;
    var pages := SettleActionBatch(turn.fetches, |d.fetchActions|);
    if pages.None? { return None; }
    fetchedPages := fetchedPages + pages.value;
    r := Some(AgentState(state.currentIteration + 1, state.decisions + [d], searchResults, fetchedPages,
                         state.uncertainties + Notes(d.uncertainties), d.finalAnswer, state.interrupted));
  }

  method ReadCompletion(c: Config, state: AgentState, reply: Reply) returns (parsed: Result<Decision, LoopError>)
    requires reply.Completed?
    ensures parsed == ReadReply(c, state, reply)
  {
    if reply.protocolError { return Err(AdapterProtocolError); }
    if reply.cutOff { return Err(IncompleteResponse); }
    if reply.text.None? { return Err(InvalidJson); }
    var decision := c.parse(reply.text.value);
    if decision.Err? { return Err(Rejected(decision.error.code)); }
    var d := decision.value;
    parsed := Ok(d);
    var retry := ValidateRetryIntent(d, state.decisions);
    if retry.Some? { parsed := Err(retry.value); }
    if parsed.Ok? && c.options.mode == Some(TargetResults) && d.kind == Review
       && state.decisions != [] && state.decisions[|state.decisions| - 1].kind == Review {
      parsed := Err(NoProgressReview);
    }
    if parsed.Ok? && (|d.searchActions| > MaxSearches(c.options) || |d.fetchActions| > MaxFetches(c.options)) {
      parsed := Err(ActionBudgetExceeded);
    }
  }

  /** What the loop does with an accepted decision: finish, the round limit or the actions. */
  method ApplyDecision(c: Config, state: AgentState, d: Decision, turn: Turn) returns (r: Outcome)
    ensures r == Accept(c, state, d, turn) && !r.Break?
  {
    var protocolError: Option<LoopError>, recoveries := None, 0;
    if d.kind == Finish {
      return Return(Finishing(c, state, d));
    }
    if state.currentIteration >= MaxIterations(c.options) {
      protocolError := Some(RoundLimitReached);
      recoveries := recoveries + 1;
      if recoveries >= MaxRecoveries {
        assert false;
        return Return(AgentResult(Interrupt(state, IterationsUsed), d, Interrupted));
      }
      return Continue(Loop(state, d, protocolError, recoveries));
    }
    var next := ExecuteAgentActions(state, d, turn);
    if next.None? {
      return Return(AgentResult(Interrupt(state, Aborted(turn.abortedDuring)), d, Interrupted));
    }
    r := Continue(Loop(next.value, d, protocolError, recoveries));
  }

  /** One model call: the abort checks around it, the recovery from a rejected completion, and the decision. */
  method OneCall(c: Config, loop: Loop, turn: Turn) returns (r: Outcome)
    ensures r == Step(c, loop, turn)
  {
    var state := loop.state;
    if state.currentIteration >= MaxIterations(c.options) && c.options.mode == None && !c.options.evidenceRequired {
      return Break;
    }
    if turn.abortedBefore.Some? {
      return Return(AgentResult(Interrupt(state, Aborted(turn.abortedBefore.value)), loop.lastDecision, Interrupted));
    }
    if turn.reply.Threw? {
      var reason := if turn.abortedAfter.Some? then Aborted(turn.abortedAfter.value)
                    else if turn.reply.timedOut then ModelTimeout else ProviderError;
      return Return(AgentResult(Interrupt(state, reason), loop.lastDecision,
                                if turn.abortedAfter.Some? || turn.reply.timedOut then Interrupted else Failed));
    }
    if turn.abortedAfter.Some? {
      return Return(AgentResult(Interrupt(state, Aborted(turn.abortedAfter.value)), loop.lastDecision, Interrupted));
    }
    var parsed := ReadCompletion(c, state, turn.reply);
    if parsed.Err? {
      var recoveries := loop.recoveries + 1;
      if recoveries >= MaxRecoveries {
        return Return(AgentResult(Interrupt(state, ProtocolFailure), loop.lastDecision, Failed));
      }
      return Continue(Loop(state, loop.lastDecision, Some(parsed.error), recoveries));
    }
    r := ApplyDecision(c, state, parsed.value, turn);
  }

  method RunResearchAgent(c: Config, env: Environment) returns (r: Result<AgentResult, TaskError>)
    ensures r == if ValidOptions(c.options) then Ok(Run(c, env)) else Err(InvalidOption)
  {
    if !ValidOptions(c.options) { return Err(InvalidOption); }
    var loop := InitialLoop();
    var call := 0;
    while call < MaxCalls(c.options)
      invariant 0 <= call <= MaxCalls(c.options)
      invariant Run(c, env) == RunFrom(c, env, loop, call)
    {
      var outcome := OneCall(c, loop, env(call));
      if outcome.Break? { break; }
      if outcome.Return? { return Ok(outcome.result); }
      RunUnfolds(c, env, call, loop);
      loop := outcome.loop;
      call := call + 1;
    }
    r := Ok(Ending(loop));
  }
}
