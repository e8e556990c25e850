/**
 `ResearchRunManager` with the maps of the source as fields: one method for each piece of
 code between two awaits. Every method is proved to make exactly one step of
 `RunLifecycle` for its run and to leave every other run alone.
 */
module RunManagement {
  import opened Wrappers
  import Spec = RunLifecycle

  type RunId = nat

  class ResearchRunManager {
    const maxRuns: nat
    const persistent: bool
    var runs: map<RunId, Spec.Run>
    var phases: map<RunId, Spec.Phase>
    var settling: set<RunId>
    var persistence: map<RunId, Spec.Chain>
    /** The run whose restored record `hydrate` is writing, before it enters the map of runs. */
    var hydrating: map<RunId, Spec.Run>
    /** The run.json files in the output directory. */
    var disk: map<RunId, Spec.Run>
    ghost var started: set<RunId>
    ghost var emitted: map<RunId, seq<Spec.RunEvent>>
    ghost var cancels: map<RunId, nat>

    ghost function InMemory(id: RunId): Option<Spec.Mem>
      reads this
    {
      if id !in persistence then None
      else if id in runs && id in phases then Some(Spec.Mem(runs[id], id in settling, phases[id], persistence[id]))
      else if id in hydrating then Some(Spec.Mem(hydrating[id], false, Spec.Hydrating, persistence[id]))
      else None
    }

    /** Everything the manager and the disk hold about run `id`. */
    ghost function View(id: RunId): Spec.Life
      reads this
    {
      Spec.Life(
        persistent,
        id in started,
        if id in disk then Some(disk[id]) else None,
        InMemory(id),
        if id in emitted then emitted[id] else [],
        if id in cancels then cancels[id] else 0)
    }

    ghost predicate Valid()
      reads this
    {
      && runs.Keys <= phases.Keys && runs.Keys <= persistence.Keys && hydrating.Keys <= persistence.Keys
      && runs.Keys <= started && hydrating.Keys <= started && runs.Keys !! hydrating.Keys
      && (forall id :: id in runs ==> !phases[id].Hydrating?)
      && forall id :: id in settling ==> id in runs && !runs[id].settled
    }

    /** Every run has gone through a behavior of its machine. */
    ghost predicate Lawful()
      reads this
    {
      Valid() && forall id :: Spec.Reachable(View(id))
    }

    constructor (maxRuns: nat, persistent: bool)
      ensures Valid() && this.persistent == persistent && runs == map[]
      ensures Lawful() && forall id :: View(id) == Spec.Init(persistent)
    {
      this.maxRuns, this.persistent := maxRuns, persistent;
      runs, phases, settling, persistence, hydrating, disk := map[], map[], {}, map[], map[], map[];
      started, emitted, cancels := {}, map[], map[];
      new;
      Spec.InitIsReachable(persistent);
    }

    /** The manager of the next process, which finds the output directory as the previous one left it. */
    constructor Restart(maxRuns: nat, previous: ResearchRunManager)
      ensures Valid() && this.persistent == previous.persistent && runs == map[] && settling == {}
      ensures forall id :: View(id) == previous.View(id).(mem := None)
      ensures previous.Lawful() ==> Lawful()
    {
      this.maxRuns, this.persistent := maxRuns, previous.persistent;
      runs, phases, settling, persistence, hydrating, disk := map[], map[], {}, map[], map[], previous.disk;
      started, emitted, cancels := previous.started, previous.emitted, previous.cancels;
      new;
      if previous.Lawful() {
        forall id ensures Spec.Reachable(View(id)) {
          Spec.LosingIsReachable(previous.View(id));
        }
      }
    }

    /** The snapshot waits behind all those taken before it; no other chain changes, and nothing is written yet. */
    method Persist(id: RunId, run: Spec.Run)
      requires id in persistence
      modifies this`persistence
      ensures persistence.Keys == old(persistence.Keys)
      ensures forall other :: other in persistence && other != id ==> persistence[other] == old(persistence)[other]
      ensures !persistent ==> persistence == old(persistence)
      ensures persistent ==>
        && persistence[id].taken == old(persistence)[id].taken + [run] && persistence[id].done == old(persistence)[id].done
        && persistence[id].last == old(persistence)[id].last && persistence[id].temp == old(persistence)[id].temp
    {
      if !persistent { return; }
      var chain := persistence[id];
      persistence := persistence[id := chain.(taken := chain.taken + [run])];
    }

    method Emit(id: RunId, kind: Spec.Kind)
      requires Valid() && id in runs
      modifies this`runs, this`persistence, this`emitted
      ensures Valid() && runs.Keys == old(runs.Keys)
      ensures View(id) == Spec.DoEmit(old(View(id)), kind)
      ensures forall other :: other != id ==> View(other) == old(View(other))
    {
      if runs[id].settled || id in settling { return; }
      var event := Spec.RunEvent(|runs[id].events| + 1, kind);
      Record(id, runs[id].(events := runs[id].events + [event]), event);
    }

    /** What `Persist` means for the run as a whole. */
    method Snapshot(id: RunId, run: Spec.Run)
      requires Valid() && id in runs
      modifies this`persistence
      ensures Valid()
      ensures var m := old(View(id)).mem.value;
        View(id) == old(View(id)).(mem := Some(m.(chain := Spec.Persist(m.chain, persistent, run))))
      ensures forall other :: other != id ==> View(other) == old(View(other))
    {
      Persist(id, run);
    }

    method SetRun(id: RunId, run: Spec.Run)
      requires Valid() && id in runs && !run.settled
      modifies this`runs
      ensures Valid() && runs.Keys == old(runs.Keys)
      ensures View(id) == old(View(id)).(mem := Some(old(View(id)).mem.value.(run := run)))
      ensures forall other :: other != id ==> View(other) == old(View(other))
    {
      runs := runs[id := run];
    }

    ghost method NoteEmitted(id: RunId, event: Spec.RunEvent)
      requires Valid()
      modifies this`emitted
      ensures Valid() && View(id) == old(View(id)).(emitted := old(View(id)).emitted + [event])
      ensures forall other :: other != id ==> View(other) == old(View(other))
    {
      emitted := emitted[id := (if id in emitted then emitted[id] else []) + [event]];
    }

    /** The run with its new event, and a snapshot of it in the chain of writes. */
    method Record(id: RunId, run: Spec.Run, event: Spec.RunEvent)
      requires Valid() && id in runs && !run.settled
      modifies this`runs, this`persistence, this`emitted
      ensures Valid() && runs.Keys == old(runs.Keys)
      ensures var before := old(View(id)); var m := before.mem.value;
        View(id) == before.(
          mem := Some(m.(run := run, chain := Spec.Persist(m.chain, persistent, run))),
          emitted := before.emitted + [event])
      ensures forall other :: other != id ==> View(other) == old(View(other))
    {
      NoteEmitted(id, event);
      SetRun(id, run);
      Snapshot(id, run);
    }

    ghost function Unfinished(): map<RunId, Spec.Run>
      reads this
    {
      map id | id in runs && !runs[id].settled :: runs[id]
    }

    method PruneFinishedRuns()
      requires Valid()
      modifies this`runs
      ensures Valid() && runs == old(Unfinished())
    {
      var ids := runs.Keys;
      while ids != {}
        invariant ids <= runs.Keys <= old(runs.Keys)
        invariant forall id :: id in old(runs) ==> (id in runs <==> id in ids || !old(runs)[id].settled)
        invariant forall id :: id in runs ==> runs[id] == old(runs)[id]
        decreases |ids|
      {
        var id :| id in ids;
        ids := ids - {id};
        if runs[id].settled { runs := runs - {id}; }
      }
    }

    /** A run enters the map of runs. */
    method Register(id: RunId, run: Spec.Run, phase: Spec.Phase, chain: Spec.Chain)
      requires Valid() && id in started && id !in hydrating && !phase.Hydrating? && id !in settling
      modifies this`runs, this`phases, this`persistence
      ensures Valid() && runs.Keys == old(runs.Keys) + {id}
      ensures View(id) == old(View(id)).(mem := Some(Spec.Mem(run, id in settling, phase, chain)))
      ensures forall other :: other != id ==> View(other) == old(View(other))
    {
      runs := runs[id := run];
      phases := phases[id := phase];
      persistence := persistence[id := chain];
    }

    ghost method MarkStarted(id: RunId)
      requires Valid()
      modifies this`started
      ensures Valid() && started == old(started) + {id} && View(id) == old(View(id)).(started := true)
      ensures forall other :: other != id ==> View(other) == old(View(other))
    {
      started := started + {id};
    }

    /** The record of a new run, before its first event. */
    method AddRun(id: RunId)
      requires Valid() && id !in started
      modifies this`runs, this`phases, this`persistence, this`started
      ensures Valid() && runs.Keys == old(runs.Keys) + {id}
      ensures View(id) == old(View(id)).(
        started := true,
        mem := Some(Spec.Mem(Spec.Run(Spec.Queued, [], false, None, false), false, Spec.Agent, Spec.EmptyChain)))
      ensures forall other :: other != id ==> View(other) == old(View(other))
    {
      MarkStarted(id);
      Register(id, Spec.Run(Spec.Queued, [], false, None, false), Spec.Agent, Spec.EmptyChain);
    }

    method SetStatus(id: RunId, status: Spec.Status)
      requires Valid() && id in runs
      modifies this`runs
      ensures Valid() && runs.Keys == old(runs.Keys) && View(id) == Spec.SetStatus(old(View(id)), status)
      ensures forall other :: other != id ==> View(other) == old(View(other))
    {
      runs := runs[id := runs[id].(status := status)];
    }

    /** The first, synchronous part of `start` and `execute` for an accepted run. */
    method Launch(id: RunId)
      requires Valid() && id !in started
      modifies this`runs, this`phases, this`persistence, this`started, this`emitted
      ensures Valid() && runs.Keys == old(runs.Keys) + {id}
      ensures View(id) == Spec.Step(old(View(id)), Spec.Start)
      ensures forall other :: other != id ==> View(other) == old(View(other))
    {
      AddRun(id);
      Emit(id, Spec.RunQueued);
      SetStatus(id, Spec.Running);
      Emit(id, Spec.RunStarted);
    }

    /**
     Starts a run under a number that was never used. A manager at its capacity first
     forgets its settled runs, and refuses only if that leaves no room.
     */
    method Start(id: RunId) returns (accepted: bool)
      requires Valid() && id !in started
      modifies this`runs, this`phases, this`persistence, this`started, this`emitted
      ensures Valid()
      ensures accepted <==> |old(runs)| < maxRuns || |old(Unfinished())| < maxRuns
      ensures accepted ==> |runs| <= maxRuns && View(id) == Spec.Step(old(View(id)), Spec.Start)
      ensures !accepted ==> View(id) == old(View(id))
      ensures forall other :: other != id ==>
        || View(other) == old(View(other))
        || (|old(runs)| >= maxRuns && other in old(runs) && old(runs)[other].settled
            && View(other) == old(View(other)).(mem := None))
    {
      MakeRoom();
      if |runs| >= maxRuns { return false; }
      ghost var before := runs.Keys;
      Launch(id);
      assert |runs.Keys| == |before| + 1;
      accepted := true;
    }

    method MakeRoom()
      requires Valid()
      modifies this`runs
      ensures Valid()
      ensures runs == if |old(runs)| >= maxRuns then old(Unfinished()) else old(runs)
      ensures runs.Keys <= old(runs.Keys)
      ensures forall other ::
        if |old(runs)| >= maxRuns && other in old(runs) && old(runs)[other].settled
        then View(other) == old(View(other)).(mem := None) else View(other) == old(View(other))
    {
      if |runs| >= maxRuns { PruneFinishedRuns(); }
    }

    method Cancel(id: RunId) returns (cancelled: bool)
      requires Valid()
      modifies this`runs, this`persistence, this`emitted, this`cancels
      ensures Valid()
      ensures if id in old(runs) then View(id) == Spec.Step(old(View(id)), Spec.Cancel) else View(id) == old(View(id))
      ensures cancelled <==> id in old(runs) && Spec.CancelAccepted(old(View(id)))
      ensures cancelled <==> View(id).cancels == old(View(id)).cancels + 1
      ensures forall other :: other != id ==> View(other) == old(View(other))
    {
      if id !in runs || runs[id].settled || id in settling || runs[id].status == Spec.Cancelling { return false; }
      SetStatus(id, Spec.Cancelling);
      Emit(id, Spec.CancellationRequested);
      CountCancel(id);
      cancelled := true;
    }

    ghost method CountCancel(id: RunId)
      requires Valid()
      modifies this`cancels
      ensures Valid() && View(id) == old(View(id)).(cancels := old(View(id)).cancels + 1)
      ensures forall other :: other != id ==> View(other) == old(View(other))
    {
      cancels := cancels[id := (if id in cancels then cancels[id] else 0) + 1];
    }

    method OnAgentReturned(id: RunId, status: Spec.Status)
      requires Valid() && Spec.Enabled(View(id), Spec.AgentReturns(status))
      modifies this`phases
      ensures Valid() && View(id) == Spec.Step(old(View(id)), Spec.AgentReturns(status))
      ensures forall other :: other != id ==> View(other) == old(View(other))
    {
      var terminal := if runs[id].status == Spec.Cancelling then Spec.Cancelled else status;
      phases := phases[id := Spec.Flushing(terminal)];
    }

    method OnAgentThrew(id: RunId)
      requires Valid() && Spec.Enabled(View(id), Spec.AgentThrows)
      modifies this`phases, this`runs
      ensures Valid() && View(id) == Spec.Step(old(View(id)), Spec.AgentThrows)
      ensures forall other :: other != id ==> View(other) == old(View(other))
    {
      if runs[id].status == Spec.Cancelling {
        phases := phases[id := Spec.Flushing(Spec.Cancelled)];
      } else {
        runs := runs[id := runs[id].(error := Some(Spec.RunThrew))];
        phases := phases[id := Spec.Flushing(Spec.Failed)];
      }
    }

    method OnFlushed(id: RunId, failed: bool)
      requires Valid() && Spec.Enabled(View(id), Spec.Flushed(failed))
      modifies this`phases, this`runs, this`persistence, this`emitted
      ensures Valid() && View(id) == Spec.Step(old(View(id)), Spec.Flushed(failed))
      ensures forall other :: other != id ==> View(other) == old(View(other))
    {
      var terminal := phases[id].terminal;
      if failed { Emit(id, Spec.Progress("evidence.write_error")); }
      if runs[id].status == Spec.Cancelling { terminal := Spec.Cancelled; }
      phases := phases[id := Spec.Reporting(terminal)];
    }

    /** The record that `settleRun` prepares beside the run. */
    method PrepareSettled(run: Spec.Run, terminal: Spec.Status) returns (settled: Spec.Run)
      ensures settled == Spec.SettledRun(run, terminal)
    {
      var event := Spec.CreateEvent(run, Spec.KindOf(terminal));
      settled := run.(status := terminal, settled := true, events := run.events + [event]);
      if terminal != Spec.Failed { settled := settled.(error := None); }
      settled := settled.(persistenceError := false);
    }

    /** Marks run `id` as settling and adds the prepared record to its chain of writes. */
    method BeginSettling(id: RunId, settled: Spec.Run, event: Spec.RunEvent)
      requires Valid() && id in runs && !runs[id].settled
      modifies this`phases, this`settling, this`persistence, this`emitted
      ensures Valid()
      ensures var before := old(View(id)); var m := before.mem.value;
        View(id) == before.(
          mem := Some(Spec.Mem(m.run, true, Spec.Settling(settled), Spec.Persist(m.chain, persistent, settled))),
          emitted := before.emitted + [event])
      ensures forall other :: other != id ==> View(other) == old(View(other))
    {
      NoteEmitted(id, event);
      settling := settling + {id};
      phases := phases[id := Spec.Settling(settled)];
      Snapshot(id, settled);
    }

    /** `settleRun` up to its await. */
    method SettleRun(id: RunId, terminal: Spec.Status)
      requires Valid() && id in runs
      modifies this`phases, this`settling, this`persistence, this`emitted
      ensures Valid() && View(id) == Spec.DoSettle(old(View(id)), terminal)
      ensures forall other :: other != id ==> View(other) == old(View(other))
    {
      if runs[id].settled || id in settling { return; }
      var settled := PrepareSettled(runs[id], terminal);
      BeginSettling(id, settled, Spec.CreateEvent(runs[id], Spec.KindOf(terminal)));
    }

    method OnReported(id: RunId, name: string)
      requires Valid() && Spec.Enabled(View(id), Spec.Reported(name))
      modifies this`phases, this`runs, this`settling, this`persistence, this`emitted
      ensures Valid() && View(id) == Spec.Step(old(View(id)), Spec.Reported(name))
      ensures forall other :: other != id ==> View(other) == old(View(other))
    {
      var terminal := phases[id].terminal;
      if persistent { Emit(id, Spec.Progress(name)); }
      if runs[id].status == Spec.Cancelling { terminal := Spec.Cancelled; }
      SettleRun(id, terminal);
    }

    /** `settleRun` once the write of the settled record is over. */
    method OnSettlePersisted(id: RunId)
      requires Valid() && Spec.Enabled(View(id), Spec.SettlePersisted)
      modifies this`phases, this`runs, this`settling
      ensures Valid() && View(id) == Spec.Step(old(View(id)), Spec.SettlePersisted)
      ensures forall other :: other != id ==> View(other) == old(View(other))
    {
      var chain := persistence[id];
      var written := !persistent || (|chain.taken| > 0 && chain.last == Some(|chain.taken| - 1));
      runs := runs[id := phases[id].result.(persistenceError := !written)];
      settling := settling - {id};
      phases := phases[id := Spec.Settled];
    }

    /** The temporary file of the next snapshot is complete. */
    method OnTempWritten(id: RunId)
      requires Valid() && Spec.Enabled(View(id), Spec.TempWritten)
      modifies this`persistence
      ensures Valid() && View(id) == Spec.Step(old(View(id)), Spec.TempWritten)
      ensures forall other :: other != id ==> View(other) == old(View(other))
    {
      persistence := persistence[id := persistence[id].(temp := true)];
    }

    /** The temporary file replaces run.json. */
    method OnRenamed(id: RunId)
      requires Valid() && Spec.Enabled(View(id), Spec.Renamed)
      modifies this`persistence, this`disk
      ensures Valid() && View(id) == Spec.Step(old(View(id)), Spec.Renamed)
      ensures forall other :: other != id ==> View(other) == old(View(other))
    {
      var chain := persistence[id];
      disk := disk[id := chain.taken[chain.done]];
      persistence := persistence[id := Spec.Chain(chain.taken, chain.done + 1, Some(chain.done), false)];
    }

    /** A write rejects; the handler that `emit` attached notes it, the one of `hydrate` does not. */
    method OnWriteFailed(id: RunId)
      requires Valid() && Spec.Enabled(View(id), Spec.WriteFails)
      modifies this`persistence, this`runs
      ensures Valid() && View(id) == Spec.Step(old(View(id)), Spec.WriteFails)
      ensures forall other :: other != id ==> View(other) == old(View(other))
    {
      if id in runs {
        runs := runs[id := runs[id].(persistenceError := true)];
      }
      var chain := persistence[id];
      persistence := persistence[id := Spec.Chain(chain.taken, chain.done + 1, chain.last, false)];
    }

    /** `hydrate` once the write of the restored record is over; the run is taken in unless it failed. */
    method OnHydratePersisted(id: RunId)
      requires Valid() && Spec.Enabled(View(id), Spec.HydratePersisted)
      modifies this`runs, this`phases, this`persistence, this`hydrating
      ensures Valid() && View(id) == Spec.Step(old(View(id)), Spec.HydratePersisted)
      ensures forall other :: other != id ==> View(other) == old(View(other))
    {
      var run, chain := hydrating[id], persistence[id];
      DropHydrating(id);
      if !persistent || (|chain.taken| > 0 && chain.last == Some(|chain.taken| - 1)) {
        Register(id, run, Spec.Hydrated, chain);
      }
    }

    method DropHydrating(id: RunId)
      requires Valid() && id !in runs
      modifies this`hydrating
      ensures Valid() && id !in hydrating && View(id) == old(View(id)).(mem := None)
      ensures forall other :: other != id ==> View(other) == old(View(other))
    {
      hydrating := hydrating - {id};
    }

    /** A run that was under way when its process stopped: its failure is noted and written. */
    method FailHydrated(id: RunId)
      requires Valid() && Spec.Enabled(View(id), Spec.Hydrate) && !Spec.IsTerminal(disk[id].status)
      modifies this`hydrating, this`persistence
      ensures Valid() && View(id) == Spec.DoHydrate(old(View(id)))
      ensures forall other :: other != id ==> View(other) == old(View(other))
    {
      var run := disk[id];
      var event := Spec.CreateEvent(run, Spec.RunFailed);
      run := run.(status := Spec.Failed, error := Some(Spec.ServiceRestarted), settled := true,
                  events := run.events + [event]);
      persistence := persistence[id := Spec.EmptyChain];
      hydrating := hydrating[id := run];
      Persist(id, run);
    }

    /** A run that was settled is taken in as it was. */
    method TakeIn(id: RunId)
      requires Valid() && Spec.Enabled(View(id), Spec.Hydrate) && Spec.IsTerminal(disk[id].status)
      modifies this`runs, this`phases, this`persistence
      ensures Valid() && View(id) == Spec.DoHydrate(old(View(id)))
      ensures forall other :: other != id ==> View(other) == old(View(other))
    {
      Register(id, disk[id].(settled := true), Spec.Hydrated, Spec.EmptyChain);
    }

    /** One run directory in the loop of `hydrate`, up to its await. */
    method HydrateRun(id: RunId)
      requires Valid() && Spec.Enabled(View(id), Spec.Hydrate)
      modifies this`runs, this`phases, this`persistence, this`hydrating
      ensures Valid() && View(id) == Spec.Step(old(View(id)), Spec.Hydrate)
      ensures forall other :: other != id ==> View(other) == old(View(other))
    {
      var status := disk[id].status;
      if status == Spec.Running || status == Spec.Queued || status == Spec.Cancelling {
        FailHydrated(id);
      } else {
        TakeIn(id);
      }
    }

    /** A start keeps all runs on behaviors of their machine, those it prunes included. */
    method HandleStart(id: RunId) returns (accepted: bool)
      requires Lawful() && id !in started
      modifies this
      ensures Lawful() && (accepted <==> |old(runs)| < maxRuns || |old(Unfinished())| < maxRuns)
    {
      accepted := Start(id);
      Spec.StepIsReachable(old(View(id)), Spec.Start);
      forall other ensures Spec.Reachable(View(other)) {
        Spec.LosingIsReachable(old(View(other)));
      }
    }

    /** What the agent, the client and the report do to a run. */
    method HandleRun(id: RunId, e: Spec.Event)
      requires Valid() && Spec.Enabled(View(id), e) && e != Spec.Start && !Spec.IsDiskEvent(e)
      modifies this
      ensures Valid() && View(id) == Spec.Step(old(View(id)), e)
      ensures forall other :: other != id ==> View(other) == old(View(other))
    {
      match e
      case Emit(name) => Emit(id, Spec.Progress(name));
      case Cancel => var _ := Cancel(id);
      case AgentReturns(status) => OnAgentReturned(id, status);
      case AgentThrows => OnAgentThrew(id);
      case Flushed(failed) => OnFlushed(id, failed);
      case Reported(name) => OnReported(id, name);
      case SettlePersisted => OnSettlePersisted(id);
    }

    /** What the writes of a run and its restoring do to it. */
    method HandleDisk(id: RunId, e: Spec.Event)
      requires Valid() && Spec.Enabled(View(id), e) && e != Spec.Crash && Spec.IsDiskEvent(e)
      modifies this
      ensures Valid() && View(id) == Spec.Step(old(View(id)), e)
      ensures forall other :: other != id ==> View(other) == old(View(other))
    {
      match e
      case TempWritten => OnTempWritten(id);
      case Renamed => OnRenamed(id);
      case WriteFails => OnWriteFailed(id);
      case Hydrate => HydrateRun(id);
      case HydratePersisted => OnHydratePersisted(id);
    }

    /** Whatever comes next for a run, all runs stay on behaviors of their machine. */
    method Handle(id: RunId, e: Spec.Event)
      requires Lawful() && Spec.Enabled(View(id), e) && e != Spec.Start && e != Spec.Crash
      modifies this
      ensures View(id) == Spec.Step(old(View(id)), e) && Lawful()
      ensures forall other :: other != id ==> View(other) == old(View(other))
    {
      Spec.StepIsReachable(View(id), e);
      if Spec.IsDiskEvent(e) {
        HandleDisk(id, e);
      } else {
        HandleRun(id, e);
      }
    }
  }
}
