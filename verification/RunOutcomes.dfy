/**
 How a run ends, told from how its agent ended and whether a cancel was accepted, and what
 each step does to the record, to its events and to the snapshots that are written.
 */
module RunOutcomes {
  import opened Wrappers
  import opened RunLifecycle

  // ---------------------------------------------------------------------------
  // The agent's end decides
  // ---------------------------------------------------------------------------

  predicate IsEnd(e: Event) {
    e.AgentReturns? || e.AgentThrows?
  }

  /** The status of a run that nobody cancels and whose agent ends with `end`. */
  function StatusOf(end: Event): Status
    requires IsEnd(end)
  {
    match end
    case AgentReturns(status) => status
    case AgentThrows => Failed
  }

  function ErrorOf(end: Event): Option<ErrorCode>
    requires IsEnd(end)
  {
    if end.AgentThrows? then Some(RunThrew) else None
  }

  predicate InPhase(l: Life, phase: Phase) {
    l.mem.Some? && l.mem.value.phase == phase
  }

  /** The record a run settles with after `end`. */
  predicate EndsWith(run: Run, end: Event)
    requires IsEnd(end)
  {
    && (run.status == Cancelled || run.status == StatusOf(end))
    && run.error == (if run.status == Cancelled then None else ErrorOf(end))
  }

  /** What is known of a run after `end`, wherever it is by now. */
  ghost predicate AfterEnd(l: Life, end: Event)
    requires IsEnd(end)
  {
    && l.started && StatusOf(end) in {Completed, Interrupted, Failed}
    && match l.mem
       case None => true
       case Some(m) =>
         match m.phase
         case Agent => false
         case Flushing(terminal) => Decided(l, terminal, end)
         case Reporting(terminal) => Decided(l, terminal, end)
         case Settling(result) => EndsWith(result, end)
         case Settled => EndsWith(m.run, end)
         case Hydrating => true
         case Hydrated => true
  }

  predicate Decided(l: Life, terminal: Status, end: Event)
    requires l.mem.Some? && IsEnd(end)
  {
    || CancelRequested(l)
    || (terminal == StatusOf(end) && l.mem.value.run.error == ErrorOf(end))
  }

  /** Until its agent ends, a run that is executed has no error. */
  ghost predicate BeforeEnd(l: Life) {
    InPhase(l, Agent) ==> l.mem.value.run.error.None?
  }

  lemma {:induction false} StepKeepsBeforeEnd(l: Life, e: Event)
    requires Inv(l) && Enabled(l, e) && BeforeEnd(l)
    ensures BeforeEnd(Step(l, e))
  {
  }

  lemma {:induction false} EndIsAfterEnd(l: Life, e: Event)
    requires Inv(l) && Enabled(l, e) && BeforeEnd(l) && IsEnd(e)
    ensures AfterEnd(Step(l, e), e)
  {
  }

  lemma {:induction false} ReportedKeepsAfterEnd(l: Life, name: string, end: Event)
    requires Inv(l) && Enabled(l, Reported(name)) && IsEnd(end) && AfterEnd(l, end)
    ensures AfterEnd(Step(l, Reported(name)), end)
  {
  }

  lemma {:induction false} StepKeepsAfterEnd(l: Life, e: Event, end: Event)
    requires Inv(l) && Enabled(l, e) && IsEnd(end) && AfterEnd(l, end)
    ensures AfterEnd(Step(l, e), end)
  {
    if e.Reported? {
      ReportedKeepsAfterEnd(l, e.name, end);
    }
  }

  lemma {:induction false} StepOf(b: seq<Life>, es: seq<Event>, i: nat)
    requires Behavior(b, es) && 0 < i < |b|
    ensures Enabled(b[i - 1], es[i - 1]) && b[i] == Step(b[i - 1], es[i - 1])
  {
    assert StepAt(b, es, i);
  }

  lemma {:induction false} BehaviorIsBeforeEnd(b: seq<Life>, es: seq<Event>, i: nat)
    requires Behavior(b, es) && i < |b|
    ensures BeforeEnd(b[i])
  {
    if i > 0 {
      BehaviorIsBeforeEnd(b, es, i - 1);
      BehaviorKeepsInv(b, es, i - 1);
      assert StepAt(b, es, i);
      StepKeepsBeforeEnd(b[i - 1], es[i - 1]);
    }
  }

  lemma {:induction false} BehaviorIsAfterEnd(b: seq<Life>, es: seq<Event>, k: nat, i: nat)
    requires Behavior(b, es) && k < i < |b| && IsEnd(es[k])
    ensures AfterEnd(b[i], es[k])
  {
    BehaviorKeepsInv(b, es, i - 1);
    StepOf(b, es, i);
    if i == k + 1 {
      BehaviorIsBeforeEnd(b, es, k);
      EndIsAfterEnd(b[k], es[k]);
    } else {
      BehaviorIsAfterEnd(b, es, k, i - 1);
      StepKeepsAfterEnd(b[i - 1], es[i - 1], es[k]);
    }
  }

  /**
   A settled run is cancelled when a cancel was accepted. Otherwise it has the status its
   agent returned, and no error, or it has failed with the error of an agent that threw.
   */
  lemma {:induction false} RunsSettleAsTheirAgentEnds(b: seq<Life>, es: seq<Event>, i: nat, k: nat)
    requires Behavior(b, es) && k < i < |b| && InPhase(b[i], Settled) && (es[k].AgentReturns? || es[k].AgentThrows?)
    ensures var run := b[i].mem.value.run;
      && (b[i].cancels > 0 ==> run.status == Cancelled && run.error.None?)
      && (b[i].cancels == 0 ==>
            match es[k]
            case AgentReturns(status) => run.status == status && run.error.None?
            case _ => run.status == Failed && run.error == Some(RunThrew))
  {
    BehaviorIsAfterEnd(b, es, k, i);
    BehaviorKeepsInv(b, es, i);
  }

  predicate PastAgent(l: Life) {
    l.mem.Some? && (l.mem.value.phase.Flushing? || l.mem.value.phase.Reporting? || l.mem.value.phase.Settling?
                    || l.mem.value.phase.Settled?)
  }

  lemma {:induction false} StepPastAgent(l: Life, e: Event)
    requires Inv(l) && Enabled(l, e) && PastAgent(Step(l, e))
    ensures PastAgent(l) || IsEnd(e)
  {
  }

  lemma {:induction false} SomeEndBefore(b: seq<Life>, es: seq<Event>, i: nat) returns (k: nat)
    requires Behavior(b, es) && i < |b| && PastAgent(b[i])
    ensures k < i && IsEnd(es[k])
  {
    BehaviorKeepsInv(b, es, i - 1);
    assert StepAt(b, es, i);
    StepPastAgent(b[i - 1], es[i - 1]);
    if IsEnd(es[i - 1]) {
      k := i - 1;
    } else {
      k := SomeEndBefore(b, es, i - 1);
    }
  }

  /** The agent of a run ends at most once, and before the run settles it has ended. */
  lemma {:induction false} OneEnd(b: seq<Life>, es: seq<Event>, i: nat)
    requires Behavior(b, es) && i < |b|
    ensures forall j, k :: 0 <= j < k < i ==> !(IsEnd(es[j]) && IsEnd(es[k]))
    ensures InPhase(b[i], Settled) ==> exists k :: 0 <= k < i && IsEnd(es[k])
  {
    forall j, k | 0 <= j < k < i && IsEnd(es[j]) ensures !IsEnd(es[k]) {
      BehaviorIsAfterEnd(b, es, j, k);
      assert StepAt(b, es, k + 1);
    }
    if InPhase(b[i], Settled) {
      var k := SomeEndBefore(b, es, i);
    }
  }

  // ---------------------------------------------------------------------------
  // The snapshots keep up
  // ---------------------------------------------------------------------------

  /** The code that executes the run has not begun to settle it. */
  predicate IsLive(l: Life) {
    l.mem.Some? && (l.mem.value.phase == Agent || l.mem.value.phase.Flushing? || l.mem.value.phase.Reporting?)
  }

  /** The newest snapshot has every event of the run. */
  predicate SnapshotKeepsUp(l: Life) {
    IsLive(l) && l.persistent ==>
      var taken := l.mem.value.chain.taken;
      taken != [] && taken[|taken| - 1].events == l.mem.value.run.events
  }

  lemma {:induction false} StartKeepsUp(l: Life)
    requires Inv(l) && Enabled(l, Start)
    ensures SnapshotKeepsUp(DoStart(l))
  {
  }

  lemma {:induction false} EmitKeepsUp(l: Life, kind: Kind)
    requires l.mem.Some? && SnapshotKeepsUp(l)
    ensures SnapshotKeepsUp(DoEmit(l, kind))
  {
  }

  lemma {:induction false} ReportedKeepsUp(l: Life, name: string)
    requires Inv(l) && Enabled(l, Reported(name))
    ensures SnapshotKeepsUp(Step(l, Reported(name)))
  {
  }

  lemma {:induction false} DiskStepKeepsUp(l: Life, e: Event)
    requires Inv(l) && Enabled(l, e) && IsDiskEvent(e) && SnapshotKeepsUp(l)
    ensures SnapshotKeepsUp(Step(l, e))
  {
  }

  lemma {:induction false} CancelKeepsUp(l: Life)
    requires Enabled(l, Cancel) && SnapshotKeepsUp(l)
    ensures SnapshotKeepsUp(Step(l, Cancel))
  {
    EmitKeepsUp(SetStatus(l, Cancelling), CancellationRequested);
  }

  lemma {:induction false} FlushedKeepsUp(l: Life, failed: bool)
    requires Enabled(l, Flushed(failed)) && SnapshotKeepsUp(l)
    ensures SnapshotKeepsUp(Step(l, Flushed(failed)))
  {
    EmitKeepsUp(l, Progress("evidence.write_error"));
  }

  lemma {:induction false} EndKeepsUp(l: Life, e: Event)
    requires Enabled(l, e) && (IsEnd(e) || e.SettlePersisted?) && SnapshotKeepsUp(l)
    ensures SnapshotKeepsUp(Step(l, e))
  {
  }

  ghost predicate KeptUp(l: Life, e: Event)
    requires Enabled(l, e)
  {
    SnapshotKeepsUp(Step(l, e))
  }

  lemma {:induction false} StepKeepsUp(l: Life, e: Event)
    requires Inv(l) && Enabled(l, e) && SnapshotKeepsUp(l)
    ensures KeptUp(l, e)
  {
    match e
    case Start => StartKeepsUp(l);
    case Emit(name) => EmitKeepsUp(l, Progress(name));
    case Cancel => CancelKeepsUp(l);
    case AgentReturns(_) => EndKeepsUp(l, e);
    case AgentThrows => EndKeepsUp(l, e);
    case Flushed(failed) => FlushedKeepsUp(l, failed);
    case Reported(name) => ReportedKeepsUp(l, name);
    case SettlePersisted => EndKeepsUp(l, e);
    case _ => DiskStepKeepsUp(l, e);
  }

  /** No event of a run that is executed waits for a snapshot. */
  lemma {:induction false} EveryEventIsInASnapshot(b: seq<Life>, es: seq<Event>, i: nat)
    requires Behavior(b, es) && i < |b| && IsLive(b[i]) && b[i].persistent
    ensures var m := b[i].mem.value;
      m.chain.taken != [] && m.chain.taken[|m.chain.taken| - 1].events == m.run.events
  {
    BehaviorKeepsUp(b, es, i);
  }

  lemma {:induction false} BehaviorKeepsUp(b: seq<Life>, es: seq<Event>, i: nat)
    requires Behavior(b, es) && i < |b|
    ensures SnapshotKeepsUp(b[i])
  {
    if i > 0 {
      BehaviorKeepsUp(b, es, i - 1);
      BehaviorKeepsInv(b, es, i - 1);
      assert StepAt(b, es, i);
      StepKeepsUp(b[i - 1], es[i - 1]);
    }
  }

  // ---------------------------------------------------------------------------
  // What each step does
  // ---------------------------------------------------------------------------

  /** The chain of writes with one snapshot more, when there is a place to write it. */
  predicate Took(l: Life, m: Life, run: Run) {
    && l.mem.Some? && m.mem.Some?
    && m.mem.value.chain == (if l.persistent then l.mem.value.chain.(taken := l.mem.value.chain.taken + [run])
                             else l.mem.value.chain)
    && m.disk == l.disk && m.persistent == l.persistent
  }

  /** A start leaves a running run with two events, each with its snapshot. */
  lemma {:induction false} StartOutcome(l: Life)
    requires Reachable(l) && Enabled(l, Start)
    ensures var m := Step(l, Start);
      && InPhase(m, Agent) && m.started && m.disk == l.disk && m.persistent == l.persistent
      && m.mem.value.run == Run(Running, [RunEvent(1, RunQueued), RunEvent(2, RunStarted)], false, None, false)
      && m.mem.value.chain.done == 0
      && m.mem.value.chain.taken ==
           (if l.persistent then [Run(Queued, [RunEvent(1, RunQueued)], false, None, false), m.mem.value.run] else [])
      && m.cancels == 0
  {
    ReachableIsInv(l);
    var first, second := RunEvent(1, RunQueued), RunEvent(2, RunStarted);
    assert [] + [first] == [first] && [first] + [second] == [first, second];
    assert Step(l, Start).mem.value.run.events == [first, second];
  }

  /** An event of a live run is appended with the next number and its snapshot is taken; any later one is dropped. */
  lemma {:induction false} EmitOutcome(l: Life, name: string)
    requires Reachable(l) && Enabled(l, Emit(name))
    ensures var m := Step(l, Emit(name)); var run := l.mem.value.run;
      && (!IsLive(l) ==> m == l)
      && (IsLive(l) ==>
            && InPhase(m, l.mem.value.phase) && m.cancels == l.cancels
            && m.mem.value.run == run.(events := run.events + [RunEvent(|run.events| + 1, Progress(name))])
            && Took(l, m, m.mem.value.run))
  {
    ReachableIsInv(l);
  }

  /**
   The first cancel of a live run is accepted: it marks the run and adds the event that says
   so. A second one and one of a run that is settling, settled or restored change nothing.
   */
  lemma {:induction false} CancelOutcome(l: Life)
    requires Reachable(l) && Enabled(l, Cancel)
    ensures var m := Step(l, Cancel); var run := l.mem.value.run;
      && (IsLive(l) && l.cancels == 0 ==>
            && m.cancels == 1 && InPhase(m, l.mem.value.phase)
            && m.mem.value.run == run.(status := Cancelling,
                                       events := run.events + [RunEvent(|run.events| + 1, CancellationRequested)])
            && Took(l, m, m.mem.value.run))
      && (!IsLive(l) || l.cancels > 0 ==> m == l)
  {
    ReachableIsInv(l);
  }

  /** After the flush the report is due; a flush that failed adds one event. */
  lemma {:induction false} FlushedOutcome(l: Life, failed: bool)
    requires Reachable(l) && Enabled(l, Flushed(failed))
    ensures var m := Step(l, Flushed(failed)); var run := l.mem.value.run;
      && m.mem.Some? && m.mem.value.phase.Reporting? && m.cancels == l.cancels
      && (failed ==>
            && m.mem.value.run ==
                 run.(events := run.events + [RunEvent(|run.events| + 1, Progress("evidence.write_error"))])
            && Took(l, m, m.mem.value.run))
      && (!failed ==> m.mem.value.run == run && m.mem.value.chain == l.mem.value.chain && m.disk == l.disk)
  {
    ReachableIsInv(l);
  }

  /**
   After the report the run begins to settle. Its record gets the event of the report, when
   there is one to write, and the event that tells the status, and is handed to the chain.
   */
  lemma {:induction false} ReportedOutcome(l: Life, name: string)
    requires Reachable(l) && Enabled(l, Reported(name))
    ensures var m := Step(l, Reported(name)); var run := l.mem.value.run;
      && m.mem.Some? && m.mem.value.phase.Settling? && m.cancels == l.cancels && m.disk == l.disk
      && var result := m.mem.value.phase.result;
         var before := run.events + (if l.persistent then [RunEvent(|run.events| + 1, Progress(name))] else []);
         && result.settled && !result.persistenceError
         && result.events == before + [RunEvent(|before| + 1, KindOf(result.status))]
         && m.mem.value.run.events == before
         && (l.persistent ==>
               m.mem.value.chain.taken == l.mem.value.chain.taken + [m.mem.value.run, result])
  {
    ReachableIsInv(l);
  }

  /** The settled record is taken over, and notes an error exactly when it did not get to the disk. */
  lemma {:induction false} SettlePersistedOutcome(l: Life)
    requires Reachable(l) && Enabled(l, SettlePersisted)
    ensures var m := Step(l, SettlePersisted); var result := l.mem.value.phase.result;
      && InPhase(m, Settled) && m.disk == l.disk
      && m.mem.value.run == result.(persistenceError := l.persistent && l.disk != Some(result))
  {
    ReachableIsInv(l);
    var m := l.mem.value;
    if l.persistent && m.chain.last != Some(|m.chain.taken| - 1) {
      assert OpenDisk(l.disk);
    }
  }

  /**
   A record of a run that had not ended is settled as failed because the service restarted,
   with one event more, and written; any other record is restored as it is.
   */
  lemma {:induction false} HydrateOutcome(l: Life)
    requires Reachable(l) && Enabled(l, Hydrate)
    ensures var m := Step(l, Hydrate); var run := l.disk.value;
      && m.disk == l.disk && m.persistent == l.persistent && m.mem.Some?
      && (IsTerminal(run.status) ==> InPhase(m, Hydrated) && m.mem.value.run == run && m.mem.value.chain.taken == [])
      && (!IsTerminal(run.status) ==>
            && InPhase(m, Hydrating)
            && m.mem.value.run.status == Failed && m.mem.value.run.error == Some(ServiceRestarted)
            && m.mem.value.run.settled
            && m.mem.value.run.events == run.events + [RunEvent(|run.events| + 1, RunFailed)]
            && m.mem.value.chain.taken == if l.persistent then [m.mem.value.run] else [])
  {
    ReachableIsInv(l);
  }

  /** While a restored record is not written, run.json holds the record of the run that had not ended. */
  predicate StillOpenOnDisk(l: Life) {
    InPhase(l, Hydrating) && l.persistent && l.mem.value.chain.last.None? ==>
      l.disk.Some? && !IsTerminal(l.disk.value.status)
  }

  lemma {:induction false} StepKeepsStillOpen(l: Life, e: Event)
    requires Inv(l) && Enabled(l, e) && StillOpenOnDisk(l)
    ensures StillOpenOnDisk(Step(l, e))
  {
  }

  lemma {:induction false} BehaviorKeepsStillOpen(b: seq<Life>, es: seq<Event>, i: nat)
    requires Behavior(b, es) && i < |b|
    ensures StillOpenOnDisk(b[i])
  {
    if i > 0 {
      BehaviorKeepsStillOpen(b, es, i - 1);
      BehaviorKeepsInv(b, es, i - 1);
      assert StepAt(b, es, i);
      StepKeepsStillOpen(b[i - 1], es[i - 1]);
    }
  }

  /** A restored record is kept exactly when it was written. */
  lemma {:induction false} HydratePersistedOutcome(l: Life)
    requires Reachable(l) && Enabled(l, HydratePersisted)
    ensures var m := Step(l, HydratePersisted);
      && m.disk == l.disk
      && (!l.persistent || l.disk == Some(l.mem.value.run) ==> InPhase(m, Hydrated) && m.mem.value.run == l.mem.value.run)
      && (l.persistent && l.disk != Some(l.mem.value.run) ==> m.mem.None?)
  {
    var b, es :| Behavior(b, es) && b[|es|] == l;
    BehaviorKeepsStillOpen(b, es, |es|);
    BehaviorKeepsInv(b, es, |es|);
  }

  /** A rename puts the next snapshot in the place of run.json; the writes before it are over. */
  lemma {:induction false} RenamedOutcome(l: Life)
    requires Reachable(l) && Enabled(l, Renamed)
    ensures var m := Step(l, Renamed); var before, after := l.mem.value.chain, m.mem.value.chain;
      && before.done < |before.taken| && m.disk == Some(before.taken[before.done])
      && after.taken == before.taken && after.done == before.done + 1 && !after.temp
      && m.mem.value.run == l.mem.value.run && m.mem.value.phase == l.mem.value.phase
  {
  }

  /** A write that fails leaves run.json alone, and a run that is executed notes the error. */
  lemma {:induction false} WriteFailsOutcome(l: Life)
    requires Reachable(l) && Enabled(l, WriteFails)
    ensures var m := Step(l, WriteFails); var before, after := l.mem.value.chain, m.mem.value.chain;
      && m.disk == l.disk && after.taken == before.taken && after.done == before.done + 1 && !after.temp
      && m.mem.value.phase == l.mem.value.phase
      && (IsLive(l) ==> m.mem.value.run == l.mem.value.run.(persistenceError := true))
      && (InPhase(l, Hydrating) ==> m.mem.value.run == l.mem.value.run)
  {
    ReachableIsInv(l);
  }
}
