/**
 The life of one research run in `ResearchRunManager`: start, events, cancellation,
 settling, the chain of pending writes of run.json, a crash of the process at any point
 and the hydration of the run by the next process.
 */
module RunLifecycle {
  import opened Wrappers

  datatype Status = Queued | Running | Cancelling | Completed | Interrupted | Failed | Cancelled

  datatype Kind =
    | RunQueued | RunStarted | CancellationRequested
    | Progress(name: string)
    | RunCompleted | RunInterrupted | RunFailed | RunCancelled

  datatype RunEvent = RunEvent(sequence: nat, kind: Kind)

  datatype ErrorCode = RunThrew | ServiceRestarted

  /** The record of a run, in memory and as written to run.json. */
  datatype Run = Run(
    status: Status,
    events: seq<RunEvent>,
    settled: bool,
    error: Option<ErrorCode>,
    persistenceError: bool)

  /** Where the code that executes or hydrates the run is waiting. */
  datatype Phase =
    | Agent
    | Flushing(terminal: Status)
    | Reporting(terminal: Status)
    | Settling(result: Run)
    | Settled
    | Hydrating
    | Hydrated

  /**
   The promise chain of the run: the snapshots in the order they were taken, how many of
   their writes are over, the last one renamed to run.json, and whether the temporary
   file of the next one is written.
   */
  datatype Chain = Chain(taken: seq<Run>, done: nat, last: Option<nat>, temp: bool)

  datatype Mem = Mem(run: Run, settling: bool, phase: Phase, chain: Chain)

  /**
   `persistent` tells whether an output directory is configured. `emitted` (every event
   the executing process added to the run) and `cancels` (how often `cancel` returned
   true) are history variables.
   */
  datatype Life = Life(
    persistent: bool,
    started: bool,
    disk: Option<Run>,
    mem: Option<Mem>,
    emitted: seq<RunEvent>,
    cancels: nat)

  /**
   `Crash` is the process losing the run from its memory: it stops, or it prunes the run to
   make room. Hydration only ever looks at run.json.
   */
  datatype Event =
    | Start
    | Emit(name: string)
    | Cancel
    | AgentReturns(status: Status)
    | AgentThrows
    | Flushed(failed: bool)
    | Reported(name: string)
    | SettlePersisted
    | TempWritten
    | Renamed
    | WriteFails
    | Crash
    | Hydrate
    | HydratePersisted

  function Init(persistent: bool): Life {
    Life(persistent, false, None, None, [], 0)
  }

  predicate IsTerminal(status: Status) {
    status == Completed || status == Interrupted || status == Failed || status == Cancelled
  }

  predicate IsTerminalKind(kind: Kind) {
    kind == RunCompleted || kind == RunInterrupted || kind == RunFailed || kind == RunCancelled
  }

  function KindOf(status: Status): Kind {
    match status
    case Completed => RunCompleted
    case Interrupted => RunInterrupted
    case Failed => RunFailed
    case _ => RunCancelled
  }

  function CreateEvent(run: Run, kind: Kind): RunEvent {
    RunEvent(|run.events| + 1, kind)
  }

  const EmptyChain := Chain([], 0, None, false)

  function Persist(chain: Chain, persistent: bool, run: Run): Chain {
    if persistent then chain.(taken := chain.taken + [run]) else chain
  }

  /** The method `emit`: nothing happens once the run is settling or settled. */
  function DoEmit(l: Life, kind: Kind): Life
    requires l.mem.Some?
  {
    var m := l.mem.value;
    if m.run.settled || m.settling then l
    else
      var event := CreateEvent(m.run, kind);
      var run := m.run.(events := m.run.events + [event]);
      l.(mem := Some(m.(run := run, chain := Persist(m.chain, l.persistent, run))),
         emitted := l.emitted + [event])
  }

  function SetStatus(l: Life, status: Status): Life
    requires l.mem.Some?
  {
    l.(mem := Some(l.mem.value.(run := l.mem.value.run.(status := status))))
  }

  function SetPhase(l: Life, phase: Phase): Life
    requires l.mem.Some?
  {
    l.(mem := Some(l.mem.value.(phase := phase)))
  }

  /** `start` with the first, synchronous part of `execute`. */
  function DoStart(l: Life): Life {
    var run := Run(Queued, [], false, None, false);
    var l1 := DoEmit(l.(started := true, mem := Some(Mem(run, false, Agent, EmptyChain))), RunQueued);
    DoEmit(SetStatus(l1, Running), RunStarted)
  }

  predicate CancelAccepted(l: Life)
    requires l.mem.Some?
  {
    var m := l.mem.value;
    !m.run.settled && !m.settling && m.run.status != Cancelling
  }

  function DoCancel(l: Life): Life
    requires l.mem.Some?
  {
    if !CancelAccepted(l) then l
    else DoEmit(SetStatus(l, Cancelling), CancellationRequested).(cancels := l.cancels + 1)
  }

  predicate CancelRequested(l: Life)
    requires l.mem.Some?
  {
    l.mem.value.run.status == Cancelling
  }

  /** The terminal status of an execution, re-read after each await. */
  function Decide(l: Life, terminal: Status): Status
    requires l.mem.Some?
  {
    if CancelRequested(l) then Cancelled else terminal
  }

  function DoAgentThrows(l: Life): Life
    requires l.mem.Some?
  {
    if CancelRequested(l) then SetPhase(l, Flushing(Cancelled))
    else
      var m := l.mem.value;
      SetPhase(l.(mem := Some(m.(run := m.run.(error := Some(RunThrew))))), Flushing(Failed))
  }

  /** The record `settleRun` builds and persists before the run itself is changed. */
  function SettledRun(run: Run, status: Status): Run {
    Run(status, run.events + [CreateEvent(run, KindOf(status))], true,
        if status == Failed then run.error else None, false)
  }

  function DoSettle(l: Life, terminal: Status): Life
    requires l.mem.Some?
  {
    var m := l.mem.value;
    if m.run.settled || m.settling then l
    else
      var settled := SettledRun(m.run, terminal);
      l.(mem := Some(Mem(m.run, true, Settling(settled), Persist(m.chain, l.persistent, settled))),
         emitted := l.emitted + [CreateEvent(m.run, KindOf(terminal))])
  }

  function DoReported(l: Life, terminal: Status, name: string): Life
    requires l.mem.Some?
  {
    var l1 := if l.persistent then DoEmit(l, Progress(name)) else l;
    DoSettle(l1, Decide(l1, terminal))
  }

  predicate ChainIdle(chain: Chain) {
    chain.done >= |chain.taken|
  }

  /** Whether the newest snapshot of the chain made it to the disk. */
  predicate NewestWritten(l: Life)
    requires l.mem.Some?
  {
    var chain := l.mem.value.chain;
    !l.persistent || (|chain.taken| > 0 && chain.last == Some(|chain.taken| - 1))
  }

  function DoSettlePersisted(l: Life): Life
    requires l.mem.Some? && l.mem.value.phase.Settling?
  {
    var m := l.mem.value;
    l.(mem := Some(Mem(m.phase.result.(persistenceError := !NewestWritten(l)), false, Settled, m.chain)))
  }

  function SetChain(l: Life, chain: Chain): Life
    requires l.mem.Some?
  {
    l.(mem := Some(l.mem.value.(chain := chain)))
  }

  function DoRenamed(l: Life): Life
    requires l.mem.Some? && !ChainIdle(l.mem.value.chain)
  {
    var chain := l.mem.value.chain;
    SetChain(l, Chain(chain.taken, chain.done + 1, Some(chain.done), false)).(disk := Some(chain.taken[chain.done]))
  }

  /** A write that fails leaves run.json alone; the handler of `emit` notes the error. */
  function DoWriteFails(l: Life): Life
    requires l.mem.Some?
  {
    var m := l.mem.value;
    var run := if m.phase.Hydrating? then m.run else m.run.(persistenceError := true);
    l.(mem := Some(m.(run := run, chain := m.chain.(done := m.chain.done + 1, temp := false))))
  }

  /** What `hydrate` makes of a record that was read from run.json. */
  function HydratedRun(run: Run): Run {
    if IsTerminal(run.status) then run.(settled := true)
    else
      run.(status := Failed, settled := true, error := Some(ServiceRestarted),
           events := run.events + [CreateEvent(run, RunFailed)])
  }

  function DoHydrate(l: Life): Life
    requires l.disk.Some?
  {
    var run := HydratedRun(l.disk.value);
    if IsTerminal(l.disk.value.status) then l.(mem := Some(Mem(run, false, Hydrated, EmptyChain)))
    else l.(mem := Some(Mem(run, false, Hydrating, Persist(EmptyChain, l.persistent, run))))
  }

  /** A failed write makes `hydrate` throw, so the run is not taken into memory. */
  function DoHydratePersisted(l: Life): Life
    requires l.mem.Some?
  {
    if NewestWritten(l) then SetPhase(l, Hydrated) else l.(mem := None)
  }

  predicate Enabled(l: Life, e: Event) {
    match e
    case Start => !l.started
    case Crash => l.started
    case Hydrate => l.started && l.mem.None? && l.disk.Some?
    case _ =>
      l.mem.Some? &&
      var m := l.mem.value;
      match e
      case Emit(_) => !m.phase.Hydrating?
      case Cancel => !m.phase.Hydrating?
      case AgentReturns(status) => m.phase == Agent && status in {Completed, Interrupted, Failed}
      case AgentThrows => m.phase == Agent
      case Flushed(_) => m.phase.Flushing?
      case Reported(_) => m.phase.Reporting?
      case SettlePersisted => m.phase.Settling? && ChainIdle(m.chain)
      case TempWritten => !ChainIdle(m.chain) && !m.chain.temp
      case Renamed => !ChainIdle(m.chain) && m.chain.temp
      case WriteFails => !ChainIdle(m.chain)
      case HydratePersisted => m.phase == Hydrating && ChainIdle(m.chain)
      case _ => true
  }

  function Step(l: Life, e: Event): Life
    requires Enabled(l, e)
  {
    match e
    case Start => DoStart(l)
    case Emit(name) => DoEmit(l, Progress(name))
    case Cancel => DoCancel(l)
    case AgentReturns(status) => SetPhase(l, Flushing(Decide(l, status)))
    case AgentThrows => DoAgentThrows(l)
    case Flushed(failed) =>
      var l1 := if failed then DoEmit(l, Progress("evidence.write_error")) else l;
      SetPhase(l1, Reporting(Decide(l1, l.mem.value.phase.terminal)))
    case Reported(name) => DoReported(l, l.mem.value.phase.terminal, name)
    case SettlePersisted => DoSettlePersisted(l)
    case TempWritten => SetChain(l, l.mem.value.chain.(temp := true))
    case Renamed => DoRenamed(l)
    case WriteFails => DoWriteFails(l)
    case Crash => l.(mem := None)
    case Hydrate => DoHydrate(l)
    case HydratePersisted => DoHydratePersisted(l)
  }

  // ---------------------------------------------------------------------------
  // The invariant
  // ---------------------------------------------------------------------------

  predicate Numbered(events: seq<RunEvent>) {
    forall i :: 0 <= i < |events| ==> events[i].sequence == i + 1
  }

  predicate NoTerminal(events: seq<RunEvent>) {
    forall i :: 0 <= i < |events| ==> !IsTerminalKind(events[i].kind)
  }

  /** A run that is not settled: no terminal status and no terminal event yet. */
  predicate OpenRun(run: Run) {
    !IsTerminal(run.status) && !run.settled && Numbered(run.events) && NoTerminal(run.events)
  }

  /** A settled run: exactly one terminal event, the last one, and it fits the status. */
  predicate ClosedRun(run: Run) {
    && IsTerminal(run.status) && run.settled && Numbered(run.events)
    && run.events != []
    && run.events[|run.events| - 1].kind == KindOf(run.status)
    && NoTerminal(run.events[..|run.events| - 1])
  }

  /** The events are those the executing process emitted, up to some point. */
  predicate EmittedPart(run: Run, emitted: seq<RunEvent>) {
    run.events <= emitted
  }

  /** As `EmittedPart`, with one `run.failed` added by a hydration. */
  predicate FailedPart(run: Run, emitted: seq<RunEvent>) {
    && run.status == Failed && run.error == Some(ServiceRestarted)
    && run.events != [] && run.events[|run.events| - 1].kind == RunFailed
    && run.events[..|run.events| - 1] <= emitted
  }

  predicate GoodRecord(run: Run, emitted: seq<RunEvent>) {
    || (OpenRun(run) && EmittedPart(run, emitted))
    || (ClosedRun(run) && (EmittedPart(run, emitted) || FailedPart(run, emitted)))
  }

  predicate InOrder(taken: seq<Run>) {
    forall i, k :: 0 <= i < k < |taken| ==> taken[i].events <= taken[k].events
  }

  ghost predicate ChainOk(l: Life) {
    l.mem.Some? ==>
      var chain := l.mem.value.chain;
      && chain.done <= |chain.taken|
      && (forall i :: 0 <= i < |chain.taken| ==> GoodRecord(chain.taken[i], l.emitted))
      && (forall i :: 0 <= i < |chain.taken| ==>
            chain.taken[i].events <= (if l.mem.value.phase.Settling? then l.mem.value.phase.result.events
                                      else l.mem.value.run.events))
      && InOrder(chain.taken)
      && (chain.last.Some? ==> chain.last.value < chain.done && l.disk == Some(chain.taken[chain.last.value]))
  }

  ghost predicate PhaseOk(l: Life) {
    match l.mem
    case None => true
    case Some(m) =>
      match m.phase
      case Agent => LiveOk(l)
      case Flushing(terminal) => LiveOk(l) && TerminalOk(l, terminal)
      case Reporting(terminal) => LiveOk(l) && TerminalOk(l, terminal)
      case Settling(result) =>
        && m.settling && OpenRun(m.run) && ClosedRun(result)
        && SettlingDisk(l, result)
        && result.events == l.emitted
        && l.emitted == m.run.events + [CreateEvent(m.run, KindOf(result.status))]
        && l.cancels <= 1 && (l.cancels == 1 <==> result.status == Cancelled)
      case Settled =>
        && !m.settling && ClosedRun(m.run) && m.run.events == l.emitted && ChainIdle(m.chain)
        && SettledDisk(l, m.run)
        && l.cancels <= 1 && (l.cancels == 1 <==> m.run.status == Cancelled)
      case Hydrating =>
        && !m.settling && ClosedRun(m.run) && GoodRecord(m.run, l.emitted)
        && (l.persistent ==> m.chain.taken == [m.run])
      case Hydrated =>
        && !m.settling && ClosedRun(m.run) && GoodRecord(m.run, l.emitted) && ChainIdle(m.chain)
        && (l.persistent ==> l.disk == Some(m.run))
  }

  ghost predicate LiveOk(l: Life)
    requires l.mem.Some?
  {
    var m := l.mem.value;
    && !m.settling && OpenRun(m.run) && m.run.events == l.emitted
    && AllOpen(m.chain.taken) && OpenDisk(l.disk)
    && l.cancels <= 1 && (l.cancels == 1 <==> m.run.status == Cancelling)
  }

  predicate AllOpen(taken: seq<Run>) {
    forall i :: 0 <= i < |taken| ==> OpenRun(taken[i])
  }

  /** run.json does not hold a settled record. */
  predicate OpenDisk(disk: Option<Run>) {
    disk.Some? ==> OpenRun(disk.value)
  }

  /** The settled record is the newest snapshot, and as long as it is not written the disk holds an open one. */
  predicate SettlingDisk(l: Life, result: Run)
    requires l.mem.Some?
  {
    var chain := l.mem.value.chain;
    && !result.persistenceError
    && (l.persistent ==>
          && chain.taken != [] && chain.taken[|chain.taken| - 1] == result && AllOpen(chain.taken[..|chain.taken| - 1])
          && (chain.last != Some(|chain.taken| - 1) ==> OpenDisk(l.disk)))
  }

  /** run.json holds the settled record exactly when no error of its write was noted. */
  predicate SettledDisk(l: Life, run: Run) {
    l.persistent ==> if run.persistenceError then OpenDisk(l.disk) else l.disk == Some(run)
  }

  ghost predicate TerminalOk(l: Life, terminal: Status) {
    IsTerminal(terminal) && (terminal == Cancelled ==> l.cancels == 1)
  }

  ghost predicate Inv(l: Life) {
    && Numbered(l.emitted)
    && (!l.started ==> l == Init(l.persistent))
    && (l.disk.Some? ==> GoodRecord(l.disk.value, l.emitted))
    && ChainOk(l)
    && PhaseOk(l)
  }

  lemma {:induction false} GrowKeepsGood(run: Run, emitted: seq<RunEvent>, more: seq<RunEvent>)
    requires GoodRecord(run, emitted) && emitted <= more
    ensures GoodRecord(run, more)
  {
  }

  lemma {:induction false} NumberedAppend(run: Run, kind: Kind)
    requires Numbered(run.events)
    ensures Numbered(run.events + [CreateEvent(run, kind)])
  {
  }

  lemma {:induction false} OpenAppend(run: Run, kind: Kind)
    requires OpenRun(run) && !IsTerminalKind(kind)
    ensures OpenRun(run.(events := run.events + [CreateEvent(run, kind)]))
  {
  }

  lemma {:induction false} SettledIsClosed(run: Run, status: Status)
    requires OpenRun(run) && IsTerminal(status)
    ensures ClosedRun(SettledRun(run, status))
  {
    var settled := SettledRun(run, status);
    assert settled.events[..|settled.events| - 1] == run.events;
  }

  /** Adding a snapshot `run` to the chain of a life whose run becomes `m.run`. */
  lemma {:induction false} TakeKeepsChain(l: Life, run: Run, phase: Phase, settling: bool, memory: Run, emitted: seq<RunEvent>)
    requires ChainOk(l) && l.mem.Some? && !l.mem.value.phase.Settling?
    requires l.emitted <= emitted && GoodRecord(run, emitted)
    requires l.disk.Some? ==> GoodRecord(l.disk.value, l.emitted)
    requires l.mem.value.run.events <= run.events
    requires run.events <= (if phase.Settling? then phase.result.events else memory.events)
    ensures var chain := Persist(l.mem.value.chain, l.persistent, run);
      ChainOk(l.(mem := Some(Mem(memory, settling, phase, chain)), emitted := emitted))
  {
    var chain := Persist(l.mem.value.chain, l.persistent, run);
    forall i | 0 <= i < |chain.taken| ensures GoodRecord(chain.taken[i], emitted) {
      if i < |l.mem.value.chain.taken| { GrowKeepsGood(chain.taken[i], l.emitted, emitted); }
    }
  }

  lemma {:induction false} EmitKeepsLive(l: Life, kind: Kind)
    requires Inv(l) && l.started && l.mem.Some? && LiveOk(l) && !l.mem.value.phase.Settling? && !IsTerminalKind(kind)
    ensures var l1 := DoEmit(l, kind);
      && LiveOk(l1) && ChainOk(l1) && Numbered(l1.emitted) && l.emitted <= l1.emitted
      && (l1.disk.Some? ==> GoodRecord(l1.disk.value, l1.emitted))
      && l1.disk == l.disk && l1.persistent == l.persistent && l1.started && l1.cancels == l.cancels
      && l1.mem.value.phase == l.mem.value.phase
  {
    var l1 := DoEmit(l, kind);
    var m := l.mem.value;
    OpenAppend(m.run, kind);
    NumberedAppend(m.run, kind);
    TakeKeepsChain(l, l1.mem.value.run, m.phase, m.settling, l1.mem.value.run, l1.emitted);
  }

  /** `emit` keeps the invariant wherever the run is. */
  lemma {:induction false} EmitKeepsInv(l: Life, kind: Kind)
    requires Inv(l) && l.started && l.mem.Some? && !IsTerminalKind(kind)
    ensures Inv(DoEmit(l, kind)) && DoEmit(l, kind).mem.Some? && l.emitted <= DoEmit(l, kind).emitted
    ensures DoEmit(l, kind).mem.value.phase == l.mem.value.phase
    ensures DoEmit(l, kind).cancels == l.cancels
    ensures CancelRequested(l) <==> CancelRequested(DoEmit(l, kind))
  {
    match l.mem.value.phase
    case Agent => EmitKeepsLive(l, kind);
    case Flushing(_) => EmitKeepsLive(l, kind);
    case Reporting(_) => EmitKeepsLive(l, kind);
    case _ =>
  }

  lemma {:induction false} StartKeepsInv(l: Life)
    requires Inv(l) && !l.started
    ensures Inv(DoStart(l))
  {
    var run := Run(Queued, [], false, None, false);
    var l0 := l.(started := true, mem := Some(Mem(run, false, Agent, EmptyChain)));
    EmitKeepsInv(l0, RunQueued);
    var l1 := DoEmit(l0, RunQueued);
    EmitKeepsInv(SetStatus(l1, Running), RunStarted);
  }

  lemma {:induction false} CancelKeepsInv(l: Life)
    requires Inv(l) && Enabled(l, Cancel)
    ensures Inv(DoCancel(l))
  {
    if CancelAccepted(l) {
      var l0 := SetStatus(l, Cancelling).(cancels := 1);
      assert LiveOk(l0);
      EmitKeepsInv(l0, CancellationRequested);
      assert DoCancel(l) == DoEmit(l0, CancellationRequested);
    }
  }

  lemma {:induction false} SettleKeepsInv(l: Life, terminal: Status)
    requires Inv(l) && l.started && l.mem.Some? && LiveOk(l) && !l.mem.value.phase.Settling? && IsTerminal(terminal)
    requires l.cancels == 1 <==> terminal == Cancelled
    ensures Inv(DoSettle(l, terminal))
  {
    var m := l.mem.value;
    var settled := SettledRun(m.run, terminal);
    SettledIsClosed(m.run, terminal);
    NumberedAppend(m.run, KindOf(terminal));
    TakeKeepsChain(l, settled, Settling(settled), true, m.run, settled.events);
  }

  lemma {:induction false} ReportedKeepsInv(l: Life, name: string)
    requires Inv(l) && Enabled(l, Reported(name))
    ensures Inv(Step(l, Reported(name)))
  {
    var terminal := l.mem.value.phase.terminal;
    var l1 := if l.persistent then DoEmit(l, Progress(name)) else l;
    EmitKeepsInv(l, Progress(name));
    SettleKeepsInv(l1, Decide(l1, terminal));
  }

  lemma {:induction false} FlushedKeepsInv(l: Life, failed: bool)
    requires Inv(l) && Enabled(l, Flushed(failed))
    ensures Inv(Step(l, Flushed(failed)))
  {
    EmitKeepsInv(l, Progress("evidence.write_error"));
  }

  lemma {:induction false} RenamedChainOk(l: Life)
    requires ChainOk(l) && l.mem.Some? && !ChainIdle(l.mem.value.chain)
    ensures ChainOk(DoRenamed(l)) && GoodRecord(DoRenamed(l).disk.value, l.emitted)
  {
  }

  /** The snapshot that is renamed is open, unless it is the settled record. */
  lemma {:induction false} RenamedDisk(l: Life)
    requires l.mem.Some? && l.mem.value.chain.done < |l.mem.value.chain.taken|
    ensures AllOpen(l.mem.value.chain.taken) ==> OpenDisk(DoRenamed(l).disk)
    ensures forall result :: SettlingDisk(l, result) ==> SettlingDisk(DoRenamed(l), result)
  {
    var chain := l.mem.value.chain;
    forall result | SettlingDisk(l, result) ensures SettlingDisk(DoRenamed(l), result) {
      if chain.done < |chain.taken| - 1 && l.persistent {
        assert chain.taken[..|chain.taken| - 1][chain.done] == chain.taken[chain.done];
      }
    }
  }

  lemma {:induction false} RenamedPhaseOk(l: Life)
    requires PhaseOk(l) && ChainOk(l) && l.mem.Some? && !ChainIdle(l.mem.value.chain)
    ensures PhaseOk(DoRenamed(l))
  {
    RenamedDisk(l);
  }

  lemma {:induction false} RenamedKeepsInv(l: Life)
    requires Inv(l) && Enabled(l, Renamed)
    ensures Inv(DoRenamed(l))
  {
    RenamedChainOk(l);
    RenamedPhaseOk(l);
  }

  lemma {:induction false} TempKeepsChain(l: Life)
    requires ChainOk(l) && l.mem.Some?
    ensures ChainOk(SetChain(l, l.mem.value.chain.(temp := true)))
  {
  }

  lemma {:induction false} TempKeepsPhase(l: Life)
    requires PhaseOk(l) && l.mem.Some?
    ensures PhaseOk(SetChain(l, l.mem.value.chain.(temp := true)))
  {
  }

  lemma {:induction false} TempKeepsInv(l: Life)
    requires Inv(l) && Enabled(l, TempWritten)
    ensures Inv(Step(l, TempWritten))
  {
    TempKeepsChain(l);
    TempKeepsPhase(l);
  }

  lemma {:induction false} WriteFailsKeepsInv(l: Life)
    requires Inv(l) && Enabled(l, WriteFails)
    ensures Inv(DoWriteFails(l))
  {
  }

  lemma {:induction false} SettlePersistedKeepsInv(l: Life)
    requires Inv(l) && Enabled(l, SettlePersisted)
    ensures Inv(DoSettlePersisted(l))
  {
  }

  lemma {:induction false} HydratedIsGood(run: Run, emitted: seq<RunEvent>)
    requires GoodRecord(run, emitted)
    ensures ClosedRun(HydratedRun(run)) && GoodRecord(HydratedRun(run), emitted)
  {
    if !IsTerminal(run.status) {
      var h := HydratedRun(run);
      NumberedAppend(run, RunFailed);
      assert h.events[..|h.events| - 1] == run.events;
    }
  }

  /** A hydrated run, with its own snapshot in the chain when it had to be settled. */
  lemma {:induction false} HydratedChainOk(l: Life, run: Run, phase: Phase, chain: Chain)
    requires GoodRecord(run, l.emitted) && !phase.Settling? && (chain == EmptyChain || chain == EmptyChain.(taken := [run]))
    ensures ChainOk(l.(mem := Some(Mem(run, false, phase, chain))))
  {
  }

  lemma {:induction false} HydrateKeepsInv(l: Life)
    requires Inv(l) && Enabled(l, Hydrate)
    ensures Inv(DoHydrate(l))
  {
    var run := HydratedRun(l.disk.value);
    HydratedIsGood(l.disk.value, l.emitted);
    HydratedChainOk(l, run, Hydrated, EmptyChain);
    HydratedChainOk(l, run, Hydrating, Persist(EmptyChain, l.persistent, run));
  }

  lemma {:induction false} HydratePersistedKeepsInv(l: Life)
    requires Inv(l) && Enabled(l, HydratePersisted)
    ensures Inv(DoHydratePersisted(l))
  {
  }

  lemma {:induction false} AgentEndsKeepsInv(l: Life, e: Event)
    requires Inv(l) && Enabled(l, e) && (e.AgentReturns? || e.AgentThrows?)
    ensures Inv(Step(l, e))
  {
  }

  /** The steps of the chain of writes and of a restart. */
  predicate IsDiskEvent(e: Event) {
    e.TempWritten? || e.Renamed? || e.WriteFails? || e.Crash? || e.Hydrate? || e.HydratePersisted?
  }

  lemma {:induction false} CrashKeepsInv(l: Life)
    requires Inv(l) && Enabled(l, Crash)
    ensures Inv(Step(l, Crash))
  {
  }

  lemma {:induction false} DiskStepKeepsInv(l: Life, e: Event)
    requires Inv(l) && Enabled(l, e) && IsDiskEvent(e)
    ensures Inv(Step(l, e))
  {
    match e
    case TempWritten => TempKeepsInv(l);
    case Renamed => RenamedKeepsInv(l);
    case WriteFails => WriteFailsKeepsInv(l);
    case Crash => CrashKeepsInv(l);
    case Hydrate => HydrateKeepsInv(l);
    case HydratePersisted => HydratePersistedKeepsInv(l);
  }

  lemma {:induction false} RunStepKeepsInv(l: Life, e: Event)
    requires Inv(l) && Enabled(l, e) && !IsDiskEvent(e)
    ensures Inv(Step(l, e))
  {
    match e
    case Start => StartKeepsInv(l);
    case Emit(name) => EmitKeepsInv(l, Progress(name));
    case Cancel => CancelKeepsInv(l);
    case AgentReturns(_) => AgentEndsKeepsInv(l, e);
    case AgentThrows => AgentEndsKeepsInv(l, e);
    case Flushed(failed) => FlushedKeepsInv(l, failed);
    case Reported(name) => ReportedKeepsInv(l, name);
    case SettlePersisted => SettlePersistedKeepsInv(l);
  }

  lemma {:induction false} StepKeepsInv(l: Life, e: Event)
    requires Inv(l) && Enabled(l, e)
    ensures Inv(Step(l, e))
  {
    if IsDiskEvent(e) {
      DiskStepKeepsInv(l, e);
    } else {
      RunStepKeepsInv(l, e);
    }
  }

  // ---------------------------------------------------------------------------
  // Every interleaving, with a crash anywhere
  // ---------------------------------------------------------------------------

  ghost predicate StepAt(b: seq<Life>, es: seq<Event>, i: nat)
    requires 0 < i < |b| == |es| + 1
  {
    Enabled(b[i - 1], es[i - 1]) && b[i] == Step(b[i - 1], es[i - 1])
  }

  ghost predicate Behavior(b: seq<Life>, es: seq<Event>) {
    && |b| == |es| + 1
    && (b[0] == Init(false) || b[0] == Init(true))
    && (forall i :: 0 < i < |b| ==> StepAt(b, es, i))
  }

  lemma {:induction false} BehaviorKeepsInv(b: seq<Life>, es: seq<Event>, i: nat)
    requires Behavior(b, es) && i < |b|
    ensures Inv(b[i])
  {
    if i > 0 {
      BehaviorKeepsInv(b, es, i - 1);
      assert StepAt(b, es, i);
      StepKeepsInv(b[i - 1], es[i - 1]);
    }
  }

  /** A state that some behavior ends in. */
  ghost predicate Reachable(p: Life) {
    exists b, es :: Behavior(b, es) && b[|es|] == p
  }

  lemma {:induction false} InitIsReachable(persistent: bool)
    ensures Reachable(Init(persistent))
  {
    var b, es: seq<Event> := [Init(persistent)], [];
    assert Behavior(b, es);
    assert b[|es|] == Init(persistent);
  }

  lemma {:induction false} LongerBehavior(b: seq<Life>, es: seq<Event>, e: Event)
    requires Behavior(b, es) && Enabled(b[|es|], e)
    ensures Behavior(b + [Step(b[|es|], e)], es + [e])
  {
    var longer, more := b + [Step(b[|es|], e)], es + [e];
    forall i | 0 < i < |longer| ensures StepAt(longer, more, i) {
      if i < |b| { assert StepAt(b, es, i); }
    }
  }

  lemma {:induction false} StepIsReachable(p: Life, e: Event)
    requires Reachable(p) && Enabled(p, e)
    ensures Reachable(Step(p, e))
  {
    var b, es :| Behavior(b, es) && b[|es|] == p;
    var longer, more := b + [Step(p, e)], es + [e];
    LongerBehavior(b, es, e);
    assert longer[|more|] == Step(p, e);
  }

  /** A process that stops or prunes loses a run without any other effect. */
  lemma {:induction false} LosingIsReachable(p: Life)
    requires Reachable(p)
    ensures Reachable(p.(mem := None))
  {
    if p.started {
      StepIsReachable(p, Crash);
    } else {
      ReachableIsInv(p);
      assert p.(mem := None) == p;
    }
  }

  lemma {:induction false} ReachableIsInv(p: Life)
    requires Reachable(p)
    ensures Inv(p)
  {
    var b, es :| Behavior(b, es) && b[|es|] == p;
    BehaviorKeepsInv(b, es, |es|);
  }

  predicate Consecutive(b: seq<Life>, es: seq<Event>, i: nat, k: nat) {
    i <= k < |b| && |b| == |es| + 1 && forall n :: i <= n < k ==> es[n] != Crash && !es[n].Hydrate? && es[n] != Start
  }

  /** The snapshots of the chain are taken and written in one order. */
  ghost predicate ChainGrows(l: Life, m: Life) {
    && l.mem.Some? && m.mem.Some?
    && var old_, new_ := l.mem.value.chain, m.mem.value.chain;
       && old_.taken <= new_.taken && old_.done <= new_.done
       && (old_.last.Some? ==> new_.last.Some? && old_.last.value <= new_.last.value)
       && (new_.last != old_.last ==> new_.last.Some? && old_.done <= new_.last.value)
  }

  /** The last snapshot written is one of those done. */
  predicate ChainSane(l: Life) {
    l.mem.Some? && l.mem.value.chain.last.Some? ==> l.mem.value.chain.last.value < l.mem.value.chain.done
  }

  lemma {:induction false} BehaviorKeepsSane(b: seq<Life>, es: seq<Event>, i: nat)
    requires Behavior(b, es) && i < |b|
    ensures ChainSane(b[i])
  {
    BehaviorKeepsInv(b, es, i);
  }

  lemma {:induction false} StepGrowsChain(l: Life, e: Event, m: Life)
    requires ChainSane(l) && Enabled(l, e) && e != Crash && e != Hydrate && e != Start && m == Step(l, e) && m.mem.Some?
    ensures ChainGrows(l, m)
  {
  }

  lemma {:induction false} ChainGrowsTransitive(l: Life, m: Life, n: Life)
    requires ChainGrows(l, m) && ChainGrows(m, n)
    ensures ChainGrows(l, n)
  {
  }

  lemma {:induction false} BehaviorStepGrowsChain(b: seq<Life>, es: seq<Event>, k: nat)
    requires Behavior(b, es) && 0 < k < |b| && es[k - 1] != Crash && es[k - 1] != Hydrate && es[k - 1] != Start
    requires b[k].mem.Some?
    ensures ChainGrows(b[k - 1], b[k])
  {
    BehaviorKeepsSane(b, es, k - 1);
    assert StepAt(b, es, k);
    StepGrowsChain(b[k - 1], es[k - 1], b[k]);
  }

  /** The snapshots of one process are written in the order in which they were taken. */
  lemma {:induction false} SnapshotsAreWrittenInOrder(b: seq<Life>, es: seq<Event>, i: nat, k: nat)
    requires Behavior(b, es) && Consecutive(b, es, i, k) && b[k].mem.Some? && b[i].mem.Some?
    ensures ChainGrows(b[i], b[k])
  {
    if i < k {
      BehaviorStepGrowsChain(b, es, k);
      SnapshotsAreWrittenInOrder(b, es, i, k - 1);
      ChainGrowsTransitive(b[i], b[k - 1], b[k]);
    }
  }

  /** What a restart makes of run.json: a settled record of what had been emitted. */
  ghost predicate Recovered(run: Run, emitted: seq<RunEvent>) {
    && ClosedRun(run)
    && (run.events <= emitted
        || exists n :: 0 <= n <= |emitted| && run.events == emitted[..n] + [RunEvent(n + 1, RunFailed)])
  }

  /**
   Crash safety: whatever the interleaving and wherever the crash, hydrating the record
   on the disk yields a settled run whose events, numbered 1..n, are a prefix of the
   events emitted, plus at most one `run.failed`.
   */
  lemma {:induction false} CrashSafety(b: seq<Life>, es: seq<Event>, i: nat)
    requires Behavior(b, es) && i < |b| && b[i].disk.Some?
    ensures Recovered(HydratedRun(b[i].disk.value), b[i].emitted)
  {
    BehaviorKeepsInv(b, es, i);
    var run := b[i].disk.value;
    HydratedIsGood(run, b[i].emitted);
    var h := HydratedRun(run);
    if !(h.events <= b[i].emitted) {
      var n := |h.events| - 1;
      assert h.events == h.events[..n] + [h.events[n]];
      assert h.events[n] == RunEvent(n + 1, RunFailed);
      assert h.events[..n] == b[i].emitted[..n];
    }
  }

  /** Hydrating twice, as after a crash during a hydration, adds no second event. */
  lemma {:induction false} HydrationIsIdempotent(b: seq<Life>, es: seq<Event>, i: nat)
    requires Behavior(b, es) && i < |b| && b[i].disk.Some?
    ensures HydratedRun(HydratedRun(b[i].disk.value)) == HydratedRun(b[i].disk.value)
  {
    BehaviorKeepsInv(b, es, i);
  }

  /**
   Cancellation is decisive: `cancel` returns true at most once in the life of a run, and
   when the run settles it did so exactly if the run settles as cancelled.
   */
  lemma {:induction false} CancellationIsDecisive(b: seq<Life>, es: seq<Event>, i: nat)
    requires Behavior(b, es) && i < |b| && b[i].mem.Some? && b[i].mem.value.phase == Settled
    ensures b[i].cancels <= 1
    ensures b[i].cancels == 1 <==> b[i].mem.value.run.status == Cancelled
    ensures !CancelAccepted(b[i])
  {
    BehaviorKeepsInv(b, es, i);
  }

  /** A settled run has one terminal event, the last one, which tells its status. */
  lemma {:induction false} SettledRunsEndWithTheirStatus(b: seq<Life>, es: seq<Event>, i: nat)
    requires Behavior(b, es) && i < |b| && b[i].mem.Some? && b[i].mem.value.run.settled
    ensures ClosedRun(b[i].mem.value.run)
  {
    BehaviorKeepsInv(b, es, i);
  }

  /** The run has settled in this process, or was restored by it. */
  predicate IsOver(l: Life) {
    l.mem.Some? && (l.mem.value.phase == Settled || l.mem.value.phase == Hydrated)
  }

  ghost predicate SameSettled(l: Life, m: Life) {
    && IsOver(l) && IsOver(m) && m.mem.value.phase == l.mem.value.phase
    && m.mem.value.run == l.mem.value.run && m.emitted == l.emitted && m.disk == l.disk && m.cancels == l.cancels
  }

  lemma {:induction false} StepKeepsSettled(l: Life, e: Event)
    requires Inv(l) && Enabled(l, e) && e != Crash && IsOver(l)
    ensures SameSettled(l, Step(l, e))
  {
  }

  lemma {:induction false} BehaviorStepKeepsSettled(b: seq<Life>, es: seq<Event>, k: nat)
    requires Behavior(b, es) && 0 < k < |b| && es[k - 1] != Crash && IsOver(b[k - 1])
    ensures SameSettled(b[k - 1], b[k])
  {
    BehaviorKeepsInv(b, es, k - 1);
    assert StepAt(b, es, k);
    StepKeepsSettled(b[k - 1], es[k - 1]);
  }

  /** Nothing happens to a settled or restored run any more, until the process stops. */
  lemma {:induction false} SettledRunsStay(b: seq<Life>, es: seq<Event>, i: nat, k: nat)
    requires Behavior(b, es) && Consecutive(b, es, i, k) && IsOver(b[i])
    ensures SameSettled(b[i], b[k])
  {
    if i < k {
      SettledRunsStay(b, es, i, k - 1);
      BehaviorStepKeepsSettled(b, es, k);
    }
  }
}
