/**
 What run.json holds over the whole life of a run, restarts included: always one of the
 snapshots taken, never an older one than before, and the settled record for good unless
 an error of its write was noted.
 */
module RunDurability {
  import opened Wrappers
  import opened RunLifecycle

  // ---------------------------------------------------------------------------
  // The snapshots of all processes
  // ---------------------------------------------------------------------------

  function Taken(l: Life): seq<Run> {
    if l.mem.Some? then l.mem.value.chain.taken else []
  }

  /** The snapshots that a step takes; a restart begins a chain of its own. */
  function Added(l: Life, m: Life): seq<Run> {
    if l.mem.Some? && m.mem.Some? && |Taken(l)| <= |Taken(m)| then Taken(m)[|Taken(l)|..] else Taken(m)
  }

  /** All snapshots taken up to state `i`, those of processes that stopped included. */
  function Snapshots(b: seq<Life>, i: nat): seq<Run>
    requires i < |b|
  {
    if i == 0 then [] else Snapshots(b, i - 1) + Added(b[i - 1], b[i])
  }

  /** The place among `all` at which the chain of the current process begins. */
  function Base(l: Life, all: seq<Run>): int {
    |all| - |Taken(l)|
  }

  /** The place of the snapshot renamed last, after event `e` in `l`. */
  function WrittenAfter(l: Life, e: Event, all: seq<Run>, at: Option<int>): Option<int> {
    if e == Renamed && l.mem.Some? then Some(Base(l, all) + l.mem.value.chain.done) else at
  }

  /** Which of all snapshots run.json is. */
  function Written(b: seq<Life>, es: seq<Event>, i: nat): Option<int>
    requires i < |b| == |es| + 1
  {
    if i == 0 then None else WrittenAfter(b[i - 1], es[i - 1], Snapshots(b, i - 1), Written(b, es, i - 1))
  }

  /** The disk is snapshot `at`, and the writes of the current process still to come are later ones. */
  predicate DiskIs(l: Life, all: seq<Run>, at: Option<int>) {
    && (l.disk.Some? <==> at.Some?)
    && (at.Some? ==>
          && 0 <= at.value < |all| && l.disk == Some(all[at.value])
          && (l.mem.Some? ==> at.value < Base(l, all) + l.mem.value.chain.done))
  }

  predicate ChainIsLast(l: Life, all: seq<Run>) {
    Base(l, all) >= 0 && all[Base(l, all)..] == Taken(l)
  }

  /** No write of the current process is over that was not begun. */
  predicate ChainBounded(l: Life) {
    l.mem.Some? ==> l.mem.value.chain.done <= |l.mem.value.chain.taken|
  }

  predicate RestartsChain(e: Event) {
    e == Start || e == Crash || e == Hydrate
  }

  /** What a step within one process does to the chain and the disk. */
  lemma {:induction false} StepOnDisk(l: Life, e: Event)
    requires Enabled(l, e) && !RestartsChain(e) && ChainBounded(l)
    ensures var m := Step(l, e);
      && l.mem.Some? && (m.mem.Some? ==> Taken(l) <= Taken(m) && l.mem.value.chain.done <= m.mem.value.chain.done)
      && (m.mem.None? ==> e != Renamed)
      && (if e == Renamed then
            && m.mem.Some? && m.mem.value.chain.done == l.mem.value.chain.done + 1
            && l.mem.value.chain.done < |Taken(l)| && m.disk == Some(Taken(l)[l.mem.value.chain.done])
          else m.disk == l.disk)
  {
  }

  lemma {:induction false} RestartOnDisk(l: Life, e: Event)
    requires Enabled(l, e) && RestartsChain(e) && (!l.started ==> l.mem.None?)
    ensures var m := Step(l, e); m.disk == l.disk && (m.mem.Some? ==> l.mem.None? && m.mem.value.chain.done == 0)
  {
  }

  lemma {:induction false} Tail<T>(all: seq<T>, old_: seq<T>, new_: seq<T>)
    requires |old_| <= |all| && all[|all| - |old_|..] == old_ && old_ <= new_
    ensures var more := all + new_[|old_|..];
      |new_| <= |more| && |more| - |new_| == |all| - |old_| && more[|more| - |new_|..] == new_
  {
    assert new_ == old_ + new_[|old_|..];
    assert all == all[..|all| - |old_|] + old_;
  }

  lemma {:induction false} GoesOn(l: Life, m: Life, all: seq<Run>, at: Option<int>)
    requires ChainIsLast(l, all) && DiskIs(l, all, at) && l.mem.Some? && m.mem.Some? && m.disk == l.disk
    requires Taken(l) <= Taken(m) && l.mem.value.chain.done <= m.mem.value.chain.done
    ensures ChainIsLast(m, all + Added(l, m)) && DiskIs(m, all + Added(l, m), at)
  {
    Tail(all, Taken(l), Taken(m));
  }

  lemma {:induction false} Renames(l: Life, m: Life, all: seq<Run>)
    requires ChainIsLast(l, all) && l.mem.Some? && m.mem.Some? && Taken(l) <= Taken(m)
    requires var done := l.mem.value.chain.done;
      done < |Taken(l)| && m.disk == Some(Taken(l)[done]) && m.mem.value.chain.done == done + 1
    ensures ChainIsLast(m, all + Added(l, m))
    ensures DiskIs(m, all + Added(l, m), Some(Base(l, all) + l.mem.value.chain.done))
  {
    Tail(all, Taken(l), Taken(m));
    assert all[Base(l, all) + l.mem.value.chain.done] == all[Base(l, all)..][l.mem.value.chain.done];
  }

  /** The process loses the run, or a process takes it up. */
  lemma {:induction false} ChangesHands(l: Life, m: Life, all: seq<Run>, at: Option<int>)
    requires DiskIs(l, all, at) && m.disk == l.disk && (m.mem.Some? ==> l.mem.None? && m.mem.value.chain.done == 0)
    ensures ChainIsLast(m, all + Added(l, m)) && DiskIs(m, all + Added(l, m), at)
  {
    assert (all + Taken(m))[|all|..] == Taken(m);
  }

  predicate NotBefore(at: Option<int>, later: Option<int>) {
    at.Some? ==> later.Some? && at.value <= later.value
  }

  /** The disk is never older than the writes that are over. */
  lemma {:induction false} WrittenIsNotBefore(l: Life, e: Event, all: seq<Run>, at: Option<int>)
    requires DiskIs(l, all, at)
    ensures NotBefore(at, WrittenAfter(l, e, all, at))
  {
  }

  lemma {:induction false} StepKeepsDisk(l: Life, e: Event, all: seq<Run>, at: Option<int>)
    requires Enabled(l, e) && ChainBounded(l) && (!l.started ==> l.mem.None?) && ChainIsLast(l, all) && DiskIs(l, all, at)
    ensures var m := Step(l, e);
      ChainIsLast(m, all + Added(l, m)) && DiskIs(m, all + Added(l, m), WrittenAfter(l, e, all, at))
  {
    var m := Step(l, e);
    if RestartsChain(e) {
      RestartOnDisk(l, e);
      ChangesHands(l, m, all, at);
    } else {
      StepOnDisk(l, e);
      if e == Renamed {
        Renames(l, m, all);
      } else if m.mem.Some? {
        GoesOn(l, m, all, at);
      } else {
        ChangesHands(l, m, all, at);
      }
    }
  }

  ghost predicate OnDisk(b: seq<Life>, es: seq<Event>, i: nat)
    requires i < |b| == |es| + 1
  {
    ChainIsLast(b[i], Snapshots(b, i)) && DiskIs(b[i], Snapshots(b, i), Written(b, es, i))
  }

  lemma {:induction false} FirstOnDisk(b: seq<Life>, es: seq<Event>)
    requires Behavior(b, es)
    ensures OnDisk(b, es, 0)
  {
  }

  lemma {:induction false} NextOnDisk(b: seq<Life>, es: seq<Event>, i: nat)
    requires Behavior(b, es) && 0 < i < |b| && OnDisk(b, es, i - 1)
    ensures OnDisk(b, es, i)
  {
    BehaviorKeepsInv(b, es, i - 1);
    assert StepAt(b, es, i);
    StepKeepsDisk(b[i - 1], es[i - 1], Snapshots(b, i - 1), Written(b, es, i - 1));
  }

  lemma {:induction false} AlwaysOnDisk(b: seq<Life>, es: seq<Event>, i: nat)
    requires Behavior(b, es) && i < |b|
    ensures OnDisk(b, es, i)
  {
    if i == 0 {
      FirstOnDisk(b, es);
    } else {
      AlwaysOnDisk(b, es, i - 1);
      NextOnDisk(b, es, i);
    }
  }

  /** run.json is missing or one of the snapshots taken, in every reachable state. */
  lemma {:induction false} DiskIsASnapshot(b: seq<Life>, es: seq<Event>, i: nat)
    requires Behavior(b, es) && i < |b|
    ensures var at := Written(b, es, i);
      if at.None? then b[i].disk.None?
      else 0 <= at.value < |Snapshots(b, i)| && b[i].disk == Some(Snapshots(b, i)[at.value])
  {
    AlwaysOnDisk(b, es, i);
  }

  lemma {:induction false} SnapshotsGrow(b: seq<Life>, i: nat, k: nat)
    requires i <= k < |b|
    ensures Snapshots(b, i) <= Snapshots(b, k)
  {
    if i < k {
      SnapshotsGrow(b, i, k - 1);
    }
  }

  lemma {:induction false} NextIsNotBefore(b: seq<Life>, es: seq<Event>, k: nat)
    requires Behavior(b, es) && 0 < k < |b|
    ensures NotBefore(Written(b, es, k - 1), Written(b, es, k))
  {
    AlwaysOnDisk(b, es, k - 1);
    WrittenIsNotBefore(b[k - 1], es[k - 1], Snapshots(b, k - 1), Written(b, es, k - 1));
  }

  lemma {:induction false} NeverBefore(places: seq<Option<int>>, i: nat, k: nat)
    requires i <= k < |places| && forall j :: 0 < j < |places| ==> NotBefore(places[j - 1], places[j])
    ensures NotBefore(places[i], places[k])
  {
    if i < k {
      NeverBefore(places, i, k - 1);
      assert NotBefore(places[k - 1], places[k]);
    }
  }

  lemma {:induction false} WrittenNeverGoesBack(b: seq<Life>, es: seq<Event>, i: nat, k: nat)
    requires Behavior(b, es) && i <= k < |b|
    ensures NotBefore(Written(b, es, i), Written(b, es, k))
  {
    var places := seq(|b|, j requires 0 <= j < |b| => Written(b, es, j));
    forall j | 0 < j < |places| ensures NotBefore(places[j - 1], places[j]) {
      NextIsNotBefore(b, es, j);
    }
    NeverBefore(places, i, k);
  }

  /** run.json never goes back to an older snapshot, whatever writes fail and wherever a process stops. */
  lemma {:induction false} DiskNeverGoesBack(b: seq<Life>, es: seq<Event>, i: nat, k: nat)
    requires Behavior(b, es) && i <= k < |b| && b[i].disk.Some?
    ensures var all, at, later := Snapshots(b, k), Written(b, es, i), Written(b, es, k);
      && Snapshots(b, i) <= all && at.Some? && later.Some? && 0 <= at.value <= later.value < |all|
      && b[i].disk == Some(all[at.value]) && b[k].disk == Some(all[later.value])
  {
    AlwaysOnDisk(b, es, i);
    AlwaysOnDisk(b, es, k);
    SnapshotsGrow(b, i, k);
    WrittenNeverGoesBack(b, es, i, k);
  }

  // ---------------------------------------------------------------------------
  // The settled record
  // ---------------------------------------------------------------------------

  /**
   When a persistent run has settled, run.json holds exactly its record if and only if no
   persistence error was noted. Otherwise the disk has no settled record, so that a
   restart reports the run as failed.
   */
  lemma {:induction false} SettledIsDurableIff(b: seq<Life>, es: seq<Event>, i: nat)
    requires Behavior(b, es) && i < |b| && b[i].persistent && b[i].mem.Some? && b[i].mem.value.phase == Settled
    ensures var run := b[i].mem.value.run;
      && (b[i].disk == Some(run) <==> !run.persistenceError)
      && (b[i].disk == Some(run) ==> HydratedRun(run) == run)
      && (run.persistenceError && b[i].disk.Some? ==>
            HydratedRun(b[i].disk.value).status == Failed && HydratedRun(b[i].disk.value).error == Some(ServiceRestarted))
  {
    BehaviorKeepsInv(b, es, i);
  }

  /** A run that has just started, with its first two snapshots to be written. */
  predicate JustStarted(l: Life) {
    && l.persistent && l.started && l.disk == None && l.mem.Some?
    && var m := l.mem.value;
       && m.phase == Agent && m.run.status == Running && !m.run.settled && !m.settling
       && m.chain.done == 0 && m.chain.last == None && !m.chain.temp
       && |m.chain.taken| == 2 && m.chain.taken[0].status == Queued
  }

  /** A run that settles as completed, with `done` of its four writes over and only the first one successful. */
  predicate SettlesUnwritten(l: Life, done: nat, temp: bool) {
    && l.persistent && l.started && l.mem.Some?
    && var m := l.mem.value;
       && m.phase.Settling? && m.phase.result.status == Completed
       && |m.chain.taken| == 4 && m.chain.taken[0].status == Queued && m.chain.done == done && m.chain.temp == temp
       && (if done == 0 then m.chain.last == None && l.disk == None
           else m.chain.last == Some(0) && l.disk == Some(m.chain.taken[0]))
  }

  lemma {:induction false} StartTakesTwo()
    ensures Enabled(Init(true), Start) && JustStarted(Step(Init(true), Start))
  {
  }

  lemma {:induction false} ReportTakesFour(l: Life, flushing: Life, reporting: Life)
    requires JustStarted(l)
    requires flushing == SetPhase(l, Flushing(Completed)) && reporting == SetPhase(l, Reporting(Completed))
    ensures Enabled(l, AgentReturns(Completed)) && Step(l, AgentReturns(Completed)) == flushing
    ensures Enabled(flushing, Flushed(false)) && Step(flushing, Flushed(false)) == reporting
    ensures var reported := Reported("report.completed");
      Enabled(reporting, reported) && SettlesUnwritten(Step(reporting, reported), 0, false)
  {
  }

  lemma {:induction false} FirstIsWritten(l: Life, temp: bool)
    requires SettlesUnwritten(l, 0, temp)
    ensures !temp ==> Enabled(l, TempWritten) && SettlesUnwritten(Step(l, TempWritten), 0, true)
    ensures temp ==> Enabled(l, Renamed) && SettlesUnwritten(Step(l, Renamed), 1, false)
  {
  }

  lemma {:induction false} NextIsNotWritten(l: Life, done: nat)
    requires SettlesUnwritten(l, done, false) && 1 <= done < 4
    ensures Enabled(l, WriteFails) && SettlesUnwritten(Step(l, WriteFails), done + 1, false)
  {
  }

  /** Settled as completed with an error noted, while the disk has a record that a restart takes for a failure. */
  predicate IsLost(l: Life) {
    && l.mem.Some? && l.mem.value.phase == Settled
    && l.mem.value.run.status == Completed && l.mem.value.run.persistenceError
    && l.disk.Some? && l.disk.value.status == Queued
    && HydratedRun(l.disk.value).status == Failed && HydratedRun(l.disk.value).error == Some(ServiceRestarted)
  }

  lemma {:induction false} SettlesWithError(l: Life)
    requires SettlesUnwritten(l, 4, false)
    ensures Enabled(l, SettlePersisted) && IsLost(Step(l, SettlePersisted))
  {
  }

  /** One event more at the end of a behavior. */
  lemma {:induction false} Then(b: seq<Life>, es: seq<Event>, l: Life, e: Event) returns (longer: seq<Life>, more: seq<Event>)
    requires Behavior(b, es) && b[|es|] == l && Enabled(l, e)
    ensures Behavior(longer, more) && longer[|more|] == Step(l, e)
  {
    longer, more := b + [Step(l, e)], es + [e];
    LongerBehavior(b, es, e);
  }

  /** Runs can begin so, and come to their settling without a write in between. */
  lemma {:induction false} SettlingIsReached() returns (b: seq<Life>, es: seq<Event>)
    ensures Behavior(b, es) && SettlesUnwritten(b[|es|], 0, false)
  {
    b, es := [Init(true)], [];
    StartTakesTwo();
    b, es := Then(b, es, Init(true), Start);
    var l := b[|es|];
    var flushing, reporting := SetPhase(l, Flushing(Completed)), SetPhase(l, Reporting(Completed));
    ReportTakesFour(l, flushing, reporting);
    b, es := Then(b, es, l, AgentReturns(Completed));
    b, es := Then(b, es, flushing, Flushed(false));
    b, es := Then(b, es, reporting, Reported("report.completed"));
  }

  lemma {:induction false} OnlyFirstIsWritten() returns (b: seq<Life>, es: seq<Event>)
    ensures Behavior(b, es) && SettlesUnwritten(b[|es|], 4, false)
  {
    b, es := SettlingIsReached();
    FirstIsWritten(b[|es|], false);
    b, es := Then(b, es, b[|es|], TempWritten);
    FirstIsWritten(b[|es|], true);
    b, es := Then(b, es, b[|es|], Renamed);
    NextIsNotWritten(b[|es|], 1);
    b, es := Then(b, es, b[|es|], WriteFails);
    NextIsNotWritten(b[|es|], 2);
    b, es := Then(b, es, b[|es|], WriteFails);
    NextIsNotWritten(b[|es|], 3);
    b, es := Then(b, es, b[|es|], WriteFails);
  }

  /** The record of a completed run can be lost: there is a behavior that ends so. */
  lemma {:induction false} SettledRecordIsLost() returns (b: seq<Life>, es: seq<Event>)
    ensures Behavior(b, es) && IsLost(b[|es|])
  {
    b, es := OnlyFirstIsWritten();
    SettlesWithError(b[|es|]);
    b, es := Then(b, es, b[|es|], SettlePersisted);
  }

  /** The disk holds the settled record, and so does the memory of whichever process has the run. */
  predicate Kept(l: Life, run: Run) {
    && l.started && l.disk == Some(run) && ClosedRun(run)
    && (l.mem.Some? ==>
          && IsOver(l) && l.mem.value.run == run
          && !l.mem.value.settling && ChainIdle(l.mem.value.chain))
  }

  lemma {:induction false} StepKeepsKept(l: Life, e: Event, run: Run)
    requires Kept(l, run) && Enabled(l, e)
    ensures Kept(Step(l, e), run)
  {
  }

  /**
   From then on no step, crash or restart changes it: every later process restores this
   record. The same holds from the moment a process has restored a run, whatever the record
   it found.
   */
  lemma {:induction false} SettledIsKept(b: seq<Life>, es: seq<Event>, i: nat, k: nat)
    requires Behavior(b, es) && i <= k < |b| && b[i].persistent && IsOver(b[i])
    requires b[i].mem.value.phase == Settled ==> !b[i].mem.value.run.persistenceError
    ensures Kept(b[k], b[i].mem.value.run)
  {
    BehaviorKeepsInv(b, es, i);
    if i < k {
      SettledIsKept(b, es, i, k - 1);
      assert StepAt(b, es, k);
      StepKeepsKept(b[k - 1], es[k - 1], b[i].mem.value.run);
    }
  }
}
