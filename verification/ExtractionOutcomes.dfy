/**
 What each event of the extraction pool does to the jobs, the slots and the queue, told
 in terms of these alone. All of it holds in every reachable state.
 */
module ExtractionOutcomes {
  import opened Wrappers
  import opened FifoQueue
  import opened ExtractionPool

  /** The jobs are the same, and all but `j` are as they were. */
  ghost predicate OnlyJob(p: Pool, q: Pool, j: JobId) {
    q.jobs.Keys == p.jobs.Keys && forall i :: i in p.jobs && i != j ==> q.jobs[i] == p.jobs[i]
  }

  /** The slots are the same, and all but `s` are as they were. */
  ghost predicate OnlySlot(p: Pool, q: Pool, s: SlotId) {
    q.slots.Keys == p.slots.Keys && forall t :: t in p.slots && t != s ==> q.slots[t] == p.slots[t]
  }

  /** The job was rejected with this code, once, and is in no slot. */
  ghost predicate RejectedWith(q: Pool, j: JobId, code: ErrorCode) {
    j in q.jobs && q.jobs[j] == Job(JobState.Settled, None, [Failed(code)])
  }

  ghost predicate GivenUp(q: Pool, s: SlotId) {
    s in q.slots && q.slots[s].active == None && q.slots[s].retiring && q.slots[s].terminating
  }

  /** What dispatching makes of a waiting job: it waits on, starts, or is rejected because something threw at it. */
  ghost predicate WaitsOrStarts(q: Pool, j: JobId, env: Env) {
    && j in q.jobs
    && match q.jobs[j].state
       case Queued => true
       case Active => j !in env.postFails
       case Settled =>
         || (RejectedWith(q, j, WorkerNotCreated) && (j in env.spawnFails || j in env.wireFails))
         || (RejectedWith(q, j, RequestNotPosted) && j in env.postFails)
  }

  /** What dispatching does to the jobs of a pool. */
  ghost predicate Dispatched(p: Pool, q: Pool, env: Env) {
    && q.jobs.Keys == p.jobs.Keys
    && (forall j :: j in p.jobs && p.jobs[j].state != Queued ==> q.jobs[j] == p.jobs[j])
    && (forall j :: j in p.jobs && p.jobs[j].state == Queued ==> WaitsOrStarts(q, j, env))
  }

  /** Slots are added at the end only, and those that are given up stay so. */
  ghost predicate SlotsGrow(p: Pool, q: Pool) {
    && p.nextSlotId <= q.nextSlotId && p.slots.Keys <= q.slots.Keys
    && (forall s :: s in q.slots && s !in p.slots ==> s >= p.nextSlotId)
    && (forall s :: s in p.slots && p.slots[s].retiring ==> q.slots[s] == p.slots[s])
  }

  // ---------------------------------------------------------------------------
  // Dispatching
  // ---------------------------------------------------------------------------

  lemma {:induction false} AssignOutcome(p: Pool, s: SlotId, env: Env)
    requires Wired(p) && !p.closed && p.queue != [] && s in p.slots && Idle(p.slots[s])
    ensures var q := Assign(p, s, env); var h := p.queue[0];
      && OnlyJob(p, q, h) && WaitsOrStarts(q, h, env) && q.jobs[h].state != Queued && SlotsGrow(p, q)
  {
    assert JobWired(p, p.queue[0]) && p.queue[0] in p.queue;
    assert SlotWired(p, s);
  }

  lemma {:induction false} SpawnOutcome(p: Pool)
    requires Wired(p)
    ensures Spawn(p).jobs == p.jobs && Spawn(p).queue == p.queue && SlotsGrow(p, Spawn(p))
  {
    forall s | s in p.slots ensures s != p.nextSlotId { assert SlotWired(p, s); }
  }

  lemma {:induction false} DropOutcome(p: Pool, env: Env)
    requires Wired(p) && p.queue != [] && (p.queue[0] in env.spawnFails || p.queue[0] in env.wireFails)
    ensures var h := p.queue[0]; var q := ExtractionPool.Settle(p.(queue := p.queue[1..]), h, Failed(WorkerNotCreated));
      && OnlyJob(p, q, h) && WaitsOrStarts(q, h, env) && q.jobs[h].state != Queued && q.slots == p.slots
  {
    assert JobWired(p, p.queue[0]) && p.queue[0] in p.queue;
  }

  lemma {:induction false} SlotsGrowOn(p: Pool, q: Pool, r: Pool)
    requires SlotsGrow(p, q) && SlotsGrow(q, r)
    ensures SlotsGrow(p, r)
  {
  }

  lemma {:induction false} DispatchOnceOutcome(p: Pool, env: Env)
    requires Wired(p) && !Quiet(p)
    ensures var q := DispatchOnce(p, env); var h := p.queue[0];
      && OnlyJob(p, q, h) && WaitsOrStarts(q, h, env) && q.jobs[h].state != Queued && SlotsGrow(p, q)
  {
    match FirstIdle(p.slots, 0, p.nextSlotId)
    case Some(s) => AssignOutcome(p, s, env);
    case None =>
      var q := Spawn(p);
      SpawnKeepsWired(p);
      SpawnOutcome(p);
      if p.queue[0] in env.spawnFails {
        DropOutcome(p, env);
      } else if p.queue[0] in env.wireFails {
        DropOutcome(q, env);
      } else {
        AssignOutcome(q, p.nextSlotId, env);
        SlotsGrowOn(p, q, Assign(q, p.nextSlotId, env));
      }
  }

  lemma {:induction false} DispatchedOn(p: Pool, h: JobId, q: Pool, r: Pool, env: Env)
    requires h in p.jobs && p.jobs[h].state == Queued
    requires OnlyJob(p, q, h) && WaitsOrStarts(q, h, env) && q.jobs[h].state != Queued && Dispatched(q, r, env)
    ensures Dispatched(p, r, env)
  {
  }

  lemma {:induction false} DispatchOutcome(p: Pool, env: Env)
    requires Wired(p)
    ensures Dispatched(p, Dispatch(p, env), env) && SlotsGrow(p, Dispatch(p, env))
    decreases |p.queue|
  {
    if !Quiet(p) {
      var q := DispatchOnce(p, env);
      DispatchOnceOutcome(p, env);
      DispatchOnceKeepsWired(p, env);
      DispatchOutcome(q, env);
      assert JobWired(p, p.queue[0]) && p.queue[0] in p.queue;
      DispatchUnfolds(p, env);
      DispatchedOn(p, p.queue[0], q, Dispatch(p, env), env);
      SlotsGrowOn(p, q, Dispatch(p, env));
    }
  }

  // ---------------------------------------------------------------------------
  // Aborts and timeouts
  // ---------------------------------------------------------------------------

  /** The event ends job `j` from outside, and rejects it with this code. */
  predicate Ends(e: Event, j: JobId, code: ErrorCode) {
    (e == Abort(j) && code == Aborted) || (e == Timeout(j) && code == TimedOut)
  }

  /** An abort or a timeout of a running job rejects it and gives up the worker that runs it. */
  lemma {:induction false} EndingARunningJob(p: Pool, e: Event, j: JobId, code: ErrorCode) returns (s: SlotId)
    requires Reachable(p) && Ends(e, j, code) && j in p.jobs && p.jobs[j].state == Active
    ensures s in p.slots && p.slots[s].active == Some(j)
    ensures var q := Step(p, e);
      && RejectedWith(q, j, code) && OnlyJob(p, q, j) && GivenUp(q, s) && OnlySlot(p, q, s) && q.queue == p.queue
  {
    ReachableIsInv(p);
    assert JobWired(p, j);
    s := p.jobs[j].slot.value;
    assert SlotWired(p, s);
  }

  /** An abort or a timeout of a waiting job rejects it and takes it out of the queue. */
  lemma {:induction false} EndingAWaitingJob(p: Pool, e: Event, j: JobId, code: ErrorCode) returns (k: nat)
    requires Reachable(p) && Ends(e, j, code) && j in p.jobs && p.jobs[j].state == Queued
    ensures k < |p.queue| && p.queue[k] == j
    ensures var q := Step(p, e);
      && RejectedWith(q, j, code) && OnlyJob(p, q, j) && q.slots == p.slots
      && q.queue == p.queue[..k] + p.queue[k + 1..]
  {
    ReachableIsInv(p);
    assert JobWired(p, j);
    k := IndexOf(p.queue, j).value;
  }

  /** After a job has settled, its abort and its timeout do nothing. */
  lemma {:induction false} EndingASettledJob(p: Pool, e: Event, j: JobId, code: ErrorCode)
    requires Ends(e, j, code) && (j in p.jobs ==> p.jobs[j].state == JobState.Settled)
    ensures Step(p, e) == p
  {
  }

  // ---------------------------------------------------------------------------
  // Workers
  // ---------------------------------------------------------------------------

  /** What the reply of a worker means for its job. */
  ghost predicate Answers(reply: Reply, outcomes: seq<Outcome>) {
    && (reply.error ==> outcomes == [Failed(ExtractionFailed)])
    && (!reply.error && reply.result == None ==> outcomes == [Failed(InvalidResponse)])
    && (!reply.error && reply.result.Some? ==> outcomes == [Extracted(reply.result.value)])
  }

  lemma {:induction false} EndActiveOutcome(p: Pool, s: SlotId, id: JobId, outcome: Outcome)
    requires Wired(p) && s in p.slots && p.slots[s].active == Some(id)
    ensures var q := EndActive(p, s, outcome);
      && Wired(q) && OnlyJob(p, q, id) && id in p.jobs && q.jobs[id] == Job(JobState.Settled, None, [outcome])
      && s in q.slots && q.slots[s].active == None
  {
    assert SlotWired(p, s) && JobWired(p, id);
    EndActiveIsWired(p, s, outcome);
  }

  lemma {:induction false} MessageIs(p: Pool, s: SlotId, id: JobId, reply: Reply, env: Env)
    requires s in p.slots && !p.slots[s].retiring && p.slots[s].active == Some(id)
    ensures Step(p, Message(s, id, reply, env)) == Dispatch(EndActive(p, s, OutcomeOf(reply)), env)
  {
  }

  /** The reply of the worker that holds a job settles it as the reply says; waiting jobs may start. */
  lemma {:induction false} MessageOutcome(p: Pool, s: SlotId, id: JobId, reply: Reply, env: Env)
    requires Reachable(p) && s in p.slots && p.slots[s].active == Some(id)
    ensures var q := Step(p, Message(s, id, reply, env));
      && id in q.jobs && q.jobs[id].state == JobState.Settled && q.jobs[id].slot == None && Answers(reply, q.jobs[id].outcomes)
      && q.jobs.Keys == p.jobs.Keys && s in q.slots
      && (forall i :: i in p.jobs && i != id && p.jobs[i].state != Queued ==> q.jobs[i] == p.jobs[i])
      && (forall i :: i in p.jobs && i != id && p.jobs[i].state == Queued ==> WaitsOrStarts(q, i, env))
  {
    ReachableIsInv(p);
    assert SlotWired(p, s);
    MessageIs(p, s, id, reply, env);
    EndActiveOutcome(p, s, id, OutcomeOf(reply));
    DispatchOutcome(EndActive(p, s, OutcomeOf(reply)), env);
  }

  /** Any other message is ignored: of a slot that is gone or given up, or under another number. */
  lemma {:induction false} StrayMessage(p: Pool, s: SlotId, id: JobId, reply: Reply, env: Env)
    requires s in p.slots ==> p.slots[s].active != Some(id)
    ensures Step(p, Message(s, id, reply, env)) == p
  {
  }

  /** An error of a worker rejects the job it runs and gives up the worker. */
  lemma {:induction false} WorkerErrorOutcome(p: Pool, s: SlotId)
    requires Reachable(p) && s in p.slots && !p.slots[s].retiring
    ensures var q := Step(p, WorkerError(s));
      && GivenUp(q, s) && OnlySlot(p, q, s) && q.queue == p.queue
      && (p.slots[s].active == None ==> q.jobs == p.jobs)
      && (p.slots[s].active.Some? ==>
            RejectedWith(q, p.slots[s].active.value, WorkerFailed) && OnlyJob(p, q, p.slots[s].active.value))
  {
    ReachableIsInv(p);
    assert SlotWired(p, s);
    if p.slots[s].active.Some? { assert JobWired(p, p.slots[s].active.value); }
  }

  /** The pool once the worker of slot `s` is gone, before waiting jobs are started. */
  function AfterExit(p: Pool, s: SlotId): Pool
    requires s in p.slots
  {
    var ended := EndActive(p, s, Failed(WorkerExited));
    ended.(slots := ended.slots - {s})
  }

  lemma {:induction false} WorkerExitIs(p: Pool, s: SlotId, env: Env)
    requires s in p.slots && !p.slots[s].retiring && !p.slots[s].terminating
    ensures Step(p, WorkerExit(s, env)) == Dispatch(AfterExit(p, s), env)
  {
    RetiringFirst(p, s, Failed(WorkerExited));
  }

  lemma {:induction false} AfterExitOutcome(p: Pool, s: SlotId)
    requires Wired(p) && s in p.slots
    ensures var q := AfterExit(p, s);
      && Wired(q) && q.jobs.Keys == p.jobs.Keys && q.nextSlotId == p.nextSlotId && s < q.nextSlotId && s !in q.slots
      && (p.slots[s].active == None ==> q.jobs == p.jobs)
      && (p.slots[s].active.Some? ==>
            RejectedWith(q, p.slots[s].active.value, WorkerExited) && OnlyJob(p, q, p.slots[s].active.value))
  {
    assert SlotWired(p, s);
    if p.slots[s].active.Some? { EndActiveOutcome(p, s, p.slots[s].active.value, Failed(WorkerExited)); }
    var ended := EndActive(p, s, Failed(WorkerExited));
    EndActiveKeepsWired(p, s, Failed(WorkerExited));
    RemoveKeepsWired(ended, s);
  }

  /** The unexpected exit of a worker rejects the job it runs and removes its slot; waiting jobs may start. */
  lemma {:induction false} WorkerExitOutcome(p: Pool, s: SlotId, env: Env)
    requires Reachable(p) && s in p.slots && !p.slots[s].retiring
    ensures var q := Step(p, WorkerExit(s, env));
      && s !in q.slots && q.jobs.Keys == p.jobs.Keys
      && (p.slots[s].active.Some? ==> RejectedWith(q, p.slots[s].active.value, WorkerExited))
      && (forall i :: i in p.jobs && p.slots[s].active != Some(i) && p.jobs[i].state != Queued ==> q.jobs[i] == p.jobs[i])
      && (forall i :: i in p.jobs && p.jobs[i].state == Queued ==> WaitsOrStarts(q, i, env))
  {
    ReachableIsInv(p);
    assert SlotWired(p, s);
    WorkerExitIs(p, s, env);
    AfterExitOutcome(p, s);
    DispatchOutcome(AfterExit(p, s), env);
    if p.slots[s].active.Some? { assert JobWired(p, p.slots[s].active.value); }
  }

  /** A finished termination removes its slot; waiting jobs may start. */
  lemma {:induction false} TerminationOutcome(p: Pool, s: SlotId, env: Env)
    requires Reachable(p) && s in p.slots && p.slots[s].terminating
    ensures var q := Step(p, TerminationDone(s, env)); s !in q.slots && Dispatched(p, q, env)
  {
    ReachableIsInv(p);
    assert SlotWired(p, s);
    RemoveKeepsWired(p, s);
    DispatchOutcome(p.(slots := p.slots - {s}), env);
  }

  // ---------------------------------------------------------------------------
  // Taking jobs in, and closing
  // ---------------------------------------------------------------------------

  /** Some slot is idle, or there is room for one more. */
  ghost predicate HasRoom(p: Pool) {
    |p.slots| < p.size || exists s :: s in p.slots && !p.slots[s].retiring && p.slots[s].active == None
  }

  /**
   A job is refused with the code of the first reason that applies: the pool is closed, the
   signal was aborted, or there is no room and the queue is full.
   */
  lemma {:induction false} RefusalOutcome(p: Pool, signalAborted: bool)
    requires Reachable(p)
    ensures Refusal(p, signalAborted) == Some(PoolClosed) <==> p.closed
    ensures Refusal(p, signalAborted) == Some(Aborted) <==> !p.closed && signalAborted
    ensures Refusal(p, signalAborted) == Some(QueueFull) <==>
      !p.closed && !signalAborted && !HasRoom(p) && |p.queue| >= p.maxQueue
    ensures Refusal(p, signalAborted) == None <==>
      !p.closed && !signalAborted && (HasRoom(p) || |p.queue| < p.maxQueue)
  {
    assert HasRoom(p) <==> HasCapacity(p);
  }

  /**
   A job is refused by a closed pool, for an aborted signal, or when there is no room and
   the queue is full. With room it is started at once, unless something throws at it.
   Without room it waits behind all others.
   */
  lemma {:induction false} ExtractOutcome(p: Pool, signalAborted: bool, env: Env)
    requires Reachable(p)
    ensures var q, id := Step(p, Extract(signalAborted, env)), p.nextJobId;
      if p.closed || signalAborted || (!HasRoom(p) && |p.queue| >= p.maxQueue) then q == p
      else
        && id !in p.jobs && q.jobs.Keys == p.jobs.Keys + {id} && (forall i :: i in p.jobs ==> q.jobs[i] == p.jobs[i])
        && if HasRoom(p) then q.queue == [] && q.jobs[id].state != Queued && WaitsOrStarts(q, id, env)
           else q.queue == p.queue + [id] && q.jobs[id] == Job(Queued, None, []) && q.slots == p.slots
  {
    ReachableIsInv(p);
    assert HasRoom(p) <==> HasCapacity(p);
    if !(p.closed || signalAborted || (!HasRoom(p) && |p.queue| >= p.maxQueue)) {
      var id := p.nextJobId;
      forall j | j in p.jobs ensures j != id { assert JobWired(p, j); }
      EnqueueKeepsWired(p);
      EnqueueOutcome(p);
      TakenIn(p, env);
    }
  }

  lemma {:induction false} EnqueueOutcome(p: Pool)
    requires p.nextJobId !in p.jobs
    ensures var q, id := Enqueue(p), p.nextJobId;
      && q.jobs.Keys == p.jobs.Keys + {id} && (forall i :: i in p.jobs ==> q.jobs[i] == p.jobs[i])
      && q.jobs[id] == Job(Queued, None, []) && q.queue == p.queue + [id] && q.slots == p.slots
      && (HasCapacity(q) <==> HasCapacity(p)) && q.closed == p.closed
  {
  }

  /** A job that is alone in the queue of a pool with room leaves it. */
  lemma {:induction false} AloneStarts(p: Pool, env: Env, id: JobId)
    requires Wired(p) && !p.closed && HasCapacity(p) && p.queue == [id] && id in p.jobs && p.jobs[id].state == Queued
    ensures var q := Dispatch(p, env); q.queue == [] && WaitsOrStarts(q, id, env) && q.jobs[id].state != Queued
    ensures forall i :: i in p.jobs && i != id ==> p.jobs[i].state != Queued
  {
    DispatchOutcome(p, env);
    DispatchConserves(p, env);
    assert JobWired(Dispatch(p, env), id);
    forall i | i in p.jobs && i != id ensures p.jobs[i].state != Queued { assert JobWired(p, i); }
  }

  lemma {:induction false} TakenIn(p: Pool, env: Env)
    requires Inv(p) && !p.closed && p.nextJobId !in p.jobs && Wired(Enqueue(p))
    ensures var q, id := Dispatch(Enqueue(p), env), p.nextJobId;
      && q.jobs.Keys == p.jobs.Keys + {id} && (forall i :: i in p.jobs ==> q.jobs[i] == p.jobs[i])
      && if HasCapacity(p) then q.queue == [] && q.jobs[id].state != Queued && WaitsOrStarts(q, id, env)
         else q == Enqueue(p)
  {
    var waiting := Enqueue(p);
    EnqueueOutcome(p);
    if HasCapacity(p) {
      assert p.queue == [];
      AloneStarts(waiting, env, p.nextJobId);
      DispatchOutcome(waiting, env);
    } else {
      NoRoomIsQuiet(waiting);
      DispatchUnfolds(waiting, env);
    }
  }

  lemma {:induction false} NoRoomIsQuiet(p: Pool)
    requires Wired(p) && !HasCapacity(p)
    ensures Quiet(p)
  {
  }

  /** Some of the jobs that are not settled are rejected because the pool closes; nothing else happens to jobs. */
  ghost predicate OnlyRejects(p: Pool, q: Pool) {
    && q.jobs.Keys == p.jobs.Keys && q.slots.Keys == p.slots.Keys
    && forall j :: j in p.jobs ==>
         || q.jobs[j] == p.jobs[j]
         || (p.jobs[j].state != JobState.Settled
             && q.jobs[j] == Job(JobState.Settled, None, p.jobs[j].outcomes + [Failed(PoolClosed)]))
  }

  lemma {:induction false} RejectsOn(p: Pool, q: Pool, r: Pool)
    requires OnlyRejects(p, q) && OnlyRejects(q, r)
    ensures OnlyRejects(p, r)
  {
  }

  lemma {:induction false} EndAndRetireRejects(p: Pool, s: SlotId)
    requires s in p.slots
    ensures OnlyRejects(p, EndAndRetire(p, s, PoolClosed))
  {
  }

  lemma {:induction false} CloseSlotsOutcome(p: Pool, from: SlotId)
    ensures OnlyRejects(p, CloseSlots(p, from))
    decreases p.nextSlotId - from
  {
    if from < p.nextSlotId {
      CloseSlotsStep(p, from);
      if from in p.slots {
        var q := EndAndRetire(p, from, PoolClosed);
        EndAndRetireRejects(p, from);
        CloseSlotKeepsBounds(p, from);
        CloseSlotsOutcome(q, from + 1);
        RejectsOn(p, q, CloseSlots(q, from + 1));
      } else {
        CloseSlotsOutcome(p, from + 1);
      }
    }
  }

  lemma {:induction false} CloseRejects(p: Pool)
    requires !p.closed
    ensures OnlyRejects(p, Step(p, Close)) && Step(p, Close).closed
  {
    var settled := SettleAll(p.(closed := true, queue := []), p.queue, Failed(PoolClosed));
    assert OnlyRejects(p, settled);
    CloseSlotsOutcome(settled, 0);
    CloseSlotsOpenOrNot(settled, 0);
    RejectsOn(p, settled, Step(p, Close));
  }

  lemma {:induction false} DrainedIsRejected(p: Pool, q: Pool)
    requires Wired(p) && Wired(q) && OnlyRejects(p, q) && q.closed
    ensures forall j :: j in p.jobs ==>
      if p.jobs[j].state == JobState.Settled then q.jobs[j] == p.jobs[j] else RejectedWith(q, j, PoolClosed)
    ensures q.queue == [] && forall s :: s in q.slots ==> GivenUp(q, s)
  {
    forall j | j in p.jobs
      ensures if p.jobs[j].state == JobState.Settled then q.jobs[j] == p.jobs[j] else RejectedWith(q, j, PoolClosed)
    {
      assert JobWired(p, j) && JobWired(q, j);
    }
    forall s | s in q.slots ensures GivenUp(q, s) { assert SlotWired(q, s); }
  }

  /** Closing rejects every job that is not settled, empties the queue and gives up every worker. */
  lemma {:induction false} CloseOutcome(p: Pool)
    requires Reachable(p) && !p.closed
    ensures var q := Step(p, Close);
      && q.closed && q.queue == [] && q.jobs.Keys == p.jobs.Keys && q.slots.Keys == p.slots.Keys
      && (forall j :: j in p.jobs ==>
            if p.jobs[j].state == JobState.Settled then q.jobs[j] == p.jobs[j] else RejectedWith(q, j, PoolClosed))
      && (forall s :: s in q.slots ==> GivenUp(q, s))
  {
    ReachableIsInv(p);
    StepIsReachable(p, Close);
    ReachableIsInv(Step(p, Close));
    CloseRejects(p);
    DrainedIsRejected(p, Step(p, Close));
  }
}
