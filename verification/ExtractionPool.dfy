/**
 The HTML extraction pool of `createHtmlExtractionPool`, as a state machine whose
 steps are the event handlers of the source: each handler runs to completion
 before the next one starts.

 A slot and a job are known by numbers given out in creation order. The slots are
 a JavaScript Set, which iterates in insertion order, so the first idle slot the
 source finds is the idle slot with the least number.
 */
module ExtractionPool {
  import opened Wrappers
  import opened FifoQueue

  type JobId = nat
  type SlotId = nat

  datatype ErrorCode =
    | PoolClosed | QueueFull | Aborted | TimedOut
    | ExtractionFailed | InvalidResponse | WorkerFailed | WorkerExited
    | WorkerNotCreated | RequestNotPosted

  datatype Outcome = Extracted(page: string) | Failed(code: ErrorCode)

  /** What a worker posts back: an error flag is looked at before a result. */
  datatype Reply = Reply(error: bool, result: Option<string>)

  datatype JobState = Queued | Active | Settled

  /** `outcomes` lists every call of the job's resolve or reject function. */
  datatype Job = Job(state: JobState, slot: Option<SlotId>, outcomes: seq<Outcome>)

  datatype Slot = Slot(active: Option<JobId>, retiring: bool, terminating: bool)

  /**
   The variables of the pool's closure. `started` is a history variable: the jobs
   handed to a worker, oldest first.
   */
  datatype Pool = Pool(
    size: nat,
    maxQueue: nat,
    slots: map<SlotId, Slot>,
    queue: seq<JobId>,
    jobs: map<JobId, Job>,
    nextJobId: JobId,
    nextSlotId: SlotId,
    closed: bool,
    started: seq<JobId>)

  /**
   What the surroundings do to one dispatch loop: the head jobs at which creating a
   worker throws, those at which setting up the worker throws once its slot is there,
   and the jobs whose `postMessage` throws. A job is at the head of the queue in one
   iteration only, so this covers every pattern of failures.
   */
  datatype Env = Env(spawnFails: set<JobId>, wireFails: set<JobId>, postFails: set<JobId>)

  datatype Event =
    | Extract(signalAborted: bool, env: Env)
    | Message(slot: SlotId, id: JobId, reply: Reply, env: Env)
    | WorkerError(slot: SlotId)
    | WorkerExit(slot: SlotId, env: Env)
    | Abort(job: JobId)
    | Timeout(job: JobId)
    | TerminationDone(slot: SlotId, env: Env)
    | Close

  function Init(size: nat, maxQueue: nat): Pool {
    Pool(size, maxQueue, map[], [], map[], 1, 1, false, [])
  }

  // ---------------------------------------------------------------------------
  // The handlers
  // ---------------------------------------------------------------------------

  function Settle(p: Pool, j: JobId, outcome: Outcome): Pool {
    if j !in p.jobs || p.jobs[j].state == Settled then p
    else p.(jobs := p.jobs[j := Job(Settled, None, p.jobs[j].outcomes + [outcome])])
  }

  function RetireSlot(p: Pool, s: SlotId): Pool
    requires s in p.slots
  {
    if p.slots[s].terminating then p
    else p.(slots := p.slots[s := p.slots[s].(retiring := true, terminating := true)])
  }

  predicate Idle(slot: Slot) {
    !slot.retiring && slot.active.None?
  }

  predicate HasIdle(slots: map<SlotId, Slot>) {
    exists s :: s in slots && Idle(slots[s])
  }

  /** The least number of an idle slot that is at least `from`. */
  function FirstIdle(slots: map<SlotId, Slot>, from: SlotId, bound: SlotId): (r: Option<SlotId>)
    requires from <= bound
    ensures r.Some? ==> r.value in slots && Idle(slots[r.value]) && from <= r.value < bound
    ensures forall s :: s in slots && Idle(slots[s]) && from <= s < bound ==> r.Some? && r.value <= s
    decreases bound - from
  {
    if from == bound then None
    else if from in slots && Idle(slots[from]) then Some(from)
    else FirstIdle(slots, from + 1, bound)
  }

  /** The head of the queue becomes the active job of slot `s`. */
  function Start(p: Pool, s: SlotId): Pool
    requires s in p.slots && |p.queue| > 0 && p.queue[0] in p.jobs
  {
    var j := p.queue[0];
    p.(queue := p.queue[1..],
       slots := p.slots[s := p.slots[s].(active := Some(j))],
       jobs := p.jobs[j := p.jobs[j].(state := Active, slot := Some(s))],
       started := p.started + [j])
  }

  /** Hand the head of the queue to the idle slot `s`. */
  function Assign(p: Pool, s: SlotId, env: Env): Pool
    requires s in p.slots && |p.queue| > 0
  {
    var j := p.queue[0];
    if j !in p.jobs || p.jobs[j].state != Queued then p.(queue := p.queue[1..])
    else if j in env.postFails then
      RetireSlot(EndActive(Start(p, s), s, Failed(RequestNotPosted)), s)
    else Start(p, s)
  }

  function Spawn(p: Pool): Pool {
    p.(slots := p.slots[p.nextSlotId := Slot(None, false, false)], nextSlotId := p.nextSlotId + 1)
  }

  /** The dispatch loop has nothing to do: it returns, or its condition fails. */
  predicate Quiet(p: Pool) {
    p.closed || p.queue == [] || (FirstIdle(p.slots, 0, p.nextSlotId).None? && |p.slots| >= p.size)
  }

  /** One iteration of the dispatch loop. */
  function DispatchOnce(p: Pool, env: Env): (q: Pool)
    requires !Quiet(p)
    ensures q.queue == p.queue[1..]
  {
    match FirstIdle(p.slots, 0, p.nextSlotId)
    case Some(s) => Assign(p, s, env)
    case None =>
      if p.queue[0] in env.spawnFails then
        Settle(p.(queue := p.queue[1..]), p.queue[0], Failed(WorkerNotCreated))
      else if p.queue[0] in env.wireFails then
        Settle(Spawn(p).(queue := p.queue[1..]), p.queue[0], Failed(WorkerNotCreated))
      else Assign(Spawn(p), p.nextSlotId, env)
  }

  function Dispatch(p: Pool, env: Env): Pool
    decreases |p.queue|
  {
    if Quiet(p) then p else Dispatch(DispatchOnce(p, env), env)
  }

  lemma {:induction false} DispatchUnfolds(p: Pool, env: Env)
    ensures Dispatch(p, env) == if Quiet(p) then p else Dispatch(DispatchOnce(p, env), env)
  {
  }

  /** The active job of a slot ends with `outcome`; nothing happens without one. */
  function EndActive(p: Pool, s: SlotId, outcome: Outcome): Pool
    requires s in p.slots
  {
    match p.slots[s].active
    case None => p
    case Some(j) => Settle(p.(slots := p.slots[s := p.slots[s].(active := None)]), j, outcome)
  }

  /** The active job of a slot ends with an error and the slot is retired. */
  function EndAndRetire(p: Pool, s: SlotId, code: ErrorCode): Pool
    requires s in p.slots
  {
    RetireSlot(EndActive(p, s, Failed(code)), s)
  }

  function RetireActive(p: Pool, j: JobId, outcome: Outcome): Pool
    requires j in p.jobs
  {
    var slot := p.jobs[j].slot;
    if slot.None? || slot.value !in p.slots || p.slots[slot.value].retiring then Settle(p, j, outcome)
    else
      var s := slot.value;
      RetireSlot(Settle(p.(slots := p.slots[s := p.slots[s].(active := None)]), j, outcome), s)
  }

  /** The abort listener and the timer of a job differ in the error only. */
  function Cancel(p: Pool, j: JobId, code: ErrorCode): Pool {
    if j !in p.jobs then p
    else match p.jobs[j].state
      case Queued => Settle(p.(queue := Without(p.queue, j)), j, Failed(code))
      case Active => RetireActive(p, j, Failed(code))
      case Settled => p
  }

  function OutcomeOf(reply: Reply): Outcome {
    if reply.error then Failed(ExtractionFailed)
    else match reply.result
      case Some(page) => Extracted(page)
      case None => Failed(InvalidResponse)
  }

  predicate HasCapacity(p: Pool) {
    HasIdle(p.slots) || |p.slots| < p.size
  }

  /** The error `extract` rejects with at once, if it does. */
  function Refusal(p: Pool, signalAborted: bool): Option<ErrorCode> {
    if p.closed then Some(PoolClosed)
    else if signalAborted then Some(Aborted)
    else if !HasCapacity(p) && |p.queue| >= p.maxQueue then Some(QueueFull)
    else None
  }

  function Enqueue(p: Pool): Pool {
    p.(queue := p.queue + [p.nextJobId],
       jobs := p.jobs[p.nextJobId := Job(Queued, None, [])],
       nextJobId := p.nextJobId + 1)
  }

  function SettleAll(p: Pool, js: seq<JobId>, outcome: Outcome): (r: Pool)
    ensures r.jobs.Keys == p.jobs.Keys && r == p.(jobs := r.jobs)
    ensures forall j :: j in p.jobs && j !in js ==> r.jobs[j] == p.jobs[j]
    ensures forall j :: j in p.jobs && j in js ==>
      r.jobs[j] == if p.jobs[j].state == Settled then p.jobs[j]
                   else Job(Settled, None, p.jobs[j].outcomes + [outcome])
    decreases |js|
  {
    if js == [] then p else SettleAll(Settle(p, js[0], outcome), js[1..], outcome)
  }

  /** The loop of `close` over the slots numbered `from` and above. */
  function CloseSlots(p: Pool, from: SlotId): Pool
    decreases p.nextSlotId - from
  {
    if from >= p.nextSlotId then p
    else if from in p.slots then
      CloseSlots(EndAndRetire(p, from, PoolClosed), from + 1)
    else CloseSlots(p, from + 1)
  }

  function Step(p: Pool, e: Event): Pool {
    match e
    case Extract(signalAborted, env) =>
      if Refusal(p, signalAborted).Some? then p else Dispatch(Enqueue(p), env)
    case Message(s, id, reply, env) =>
      if s !in p.slots || p.slots[s].retiring || p.slots[s].active != Some(id) then p
      else
        Dispatch(EndActive(p, s, OutcomeOf(reply)), env)
    case WorkerError(s) =>
      if s !in p.slots || p.slots[s].retiring then p
      else
        var p1 := p.(slots := p.slots[s := p.slots[s].(retiring := true)]);
        RetireSlot(EndActive(p1, s, Failed(WorkerFailed)), s)
    case WorkerExit(s, env) =>
      if s !in p.slots || p.slots[s].retiring then p
      else
        var p1 := p.(slots := p.slots[s := p.slots[s].(retiring := true)]);
        var p2 := EndActive(p1, s, Failed(WorkerExited));
        Dispatch(p2.(slots := p2.slots - {s}), env)
    case Abort(j) => Cancel(p, j, Aborted)
    case Timeout(j) => Cancel(p, j, TimedOut)
    case TerminationDone(s, env) =>
      if s !in p.slots || !p.slots[s].terminating then p
      else Dispatch(p.(slots := p.slots - {s}), env)
    case Close =>
      if p.closed then p
      else
        var p1 := SettleAll(p.(closed := true, queue := []), p.queue, Failed(PoolClosed));
        CloseSlots(p1, 0)
  }

  // ---------------------------------------------------------------------------
  // The invariant
  // ---------------------------------------------------------------------------

  ghost predicate SlotWired(p: Pool, s: SlotId)
    requires s in p.slots
  {
    var slot := p.slots[s];
    && s < p.nextSlotId
    && (slot.retiring <==> slot.terminating)
    && (slot.active.Some? ==>
          && !slot.retiring
          && slot.active.value in p.jobs
          && p.jobs[slot.active.value].state == Active
          && p.jobs[slot.active.value].slot == Some(s))
  }

  ghost predicate JobWired(p: Pool, j: JobId)
    requires j in p.jobs
  {
    var job := p.jobs[j];
    && 1 <= j < p.nextJobId
    && (j in p.queue <==> job.state == Queued)
    && match job.state
       case Queued => job.slot.None? && job.outcomes == []
       case Active =>
         && job.outcomes == []
         && job.slot.Some? && job.slot.value in p.slots && p.slots[job.slot.value].active == Some(j)
       case Settled => job.slot.None? && |job.outcomes| == 1
  }

  ghost predicate Drained(p: Pool) {
    && p.queue == []
    && (forall j :: j in p.jobs ==> p.jobs[j].state == Settled)
    && (forall s :: s in p.slots ==> p.slots[s].retiring)
  }

  /** Everything the handlers keep, also in the middle of a dispatch loop. */
  ghost predicate Wired(p: Pool) {
    && |p.slots| <= p.size
    && (forall s :: s in p.slots ==> SlotWired(p, s))
    && (forall j :: j in p.jobs ==> JobWired(p, j))
    && (forall j :: 1 <= j < p.nextJobId ==> j in p.jobs)
    && (forall j :: j in p.jobs && p.jobs[j].state == Active ==> j in p.started)
    && (forall k :: 0 <= k < |p.queue| ==> p.queue[k] in p.jobs)
    && p.nextJobId >= 1
    && Ordered(p.started, p.queue, p.nextJobId)
    && (p.closed ==> Drained(p))
  }

  /** An open pool with work waiting has all its slots and none of them idle. */
  ghost predicate Conserved(p: Pool) {
    !p.closed && p.queue != [] ==> |p.slots| == p.size && !HasIdle(p.slots)
  }

  ghost predicate Inv(p: Pool) {
    p.size >= 1 && Wired(p) && Conserved(p) && |p.queue| <= p.maxQueue
  }

  lemma {:induction false} InitKeepsInv(size: nat, maxQueue: nat)
    requires size >= 1
    ensures Inv(Init(size, maxQueue))
  {
  }

  /**
   What a step may do to what came before: configuration stays, a settled job stays
   as it is, and jobs start at the end of the history only.
   */
  ghost predicate Extends(p: Pool, q: Pool) {
    && q.size == p.size && q.maxQueue == p.maxQueue
    && (p.closed ==> q.closed && q.jobs == p.jobs && q.started == p.started)
    && p.started <= q.started
    && p.jobs.Keys <= q.jobs.Keys
    && (forall j :: j in p.jobs && p.jobs[j].state == Settled ==> q.jobs[j] == p.jobs[j])
  }

  /** No job is given a page between `p` and `q`. */
  ghost predicate NoPage(p: Pool, q: Pool) {
    forall j :: j in q.jobs && q.jobs[j].outcomes != [] && q.jobs[j].outcomes[0].Extracted? ==>
      j in p.jobs && p.jobs[j].outcomes == q.jobs[j].outcomes
  }

  lemma {:induction false} SpawnKeepsWired(p: Pool)
    requires Wired(p) && !p.closed && |p.slots| < p.size
    ensures Wired(Spawn(p)) && Extends(p, Spawn(p)) && NoPage(p, Spawn(p))
    ensures p.nextSlotId in Spawn(p).slots && Idle(Spawn(p).slots[p.nextSlotId])
  {
    var q := Spawn(p);
    assert p.nextSlotId !in p.slots;
    forall s | s in q.slots ensures SlotWired(q, s) {
      if s != p.nextSlotId { assert SlotWired(p, s); }
    }
    forall j | j in q.jobs ensures JobWired(q, j) { assert JobWired(p, j); }
  }

  lemma {:induction false} StartKeepsWired(p: Pool, s: SlotId)
    requires Wired(p) && !p.closed && p.queue != [] && s in p.slots && Idle(p.slots[s])
    ensures Wired(Start(p, s)) && Extends(p, Start(p, s)) && NoPage(p, Start(p, s))
  {
    var q := Start(p, s);
    var h := p.queue[0];
    assert JobWired(p, h) && SlotWired(p, s);
    assert h in p.queue && p.jobs[h].state == Queued;
    OrderedParts(p.started, p.queue, p.nextJobId);
    OrderedPop(p.started, p.queue, p.nextJobId);
    assert q.slots.Keys == p.slots.Keys;
    assert |q.slots.Keys| == |q.slots| && |p.slots.Keys| == |p.slots|;
    assert q.started[|p.started|] == h;
    forall t | t in q.slots ensures SlotWired(q, t) { assert SlotWired(p, t); }
    forall j | j in q.jobs ensures JobWired(q, j) {
      assert JobWired(p, j);
    }
  }

  lemma {:induction false} EndActiveIsWired(p: Pool, s: SlotId, outcome: Outcome)
    requires Wired(p) && s in p.slots
    ensures Wired(EndActive(p, s, outcome))
  {
    var q := EndActive(p, s, outcome);
    assert SlotWired(p, s);
    assert q.slots.Keys == p.slots.Keys;
    assert |q.slots.Keys| == |q.slots| && |p.slots.Keys| == |p.slots|;
    forall t | t in q.slots ensures SlotWired(q, t) { assert SlotWired(p, t); }
    forall j | j in q.jobs ensures JobWired(q, j) { assert JobWired(p, j); }
  }

  lemma {:induction false} EndActiveExtends(p: Pool, s: SlotId, outcome: Outcome)
    requires s in p.slots && SlotWired(p, s) && (p.closed ==> p.slots[s].retiring)
    requires p.slots[s].active.Some? ==> p.jobs[p.slots[s].active.value].outcomes == []
    ensures var q := EndActive(p, s, outcome);
      && Extends(p, q) && (outcome.Failed? ==> NoPage(p, q))
      && q.slots.Keys == p.slots.Keys && q.slots[s] == p.slots[s].(active := None)
      && q.closed == p.closed && q.queue == p.queue
  {
  }

  lemma {:induction false} EndActiveKeepsWired(p: Pool, s: SlotId, outcome: Outcome)
    requires Wired(p) && s in p.slots
    ensures var q := EndActive(p, s, outcome);
      && Wired(q) && Extends(p, q) && (outcome.Failed? ==> NoPage(p, q))
      && q.slots.Keys == p.slots.Keys && q.slots[s] == p.slots[s].(active := None)
      && q.closed == p.closed && q.queue == p.queue
  {
    assert SlotWired(p, s);
    if p.slots[s].active.Some? { assert JobWired(p, p.slots[s].active.value); }
    EndActiveIsWired(p, s, outcome);
    EndActiveExtends(p, s, outcome);
  }

  lemma {:induction false} RetireKeepsWired(p: Pool, s: SlotId)
    requires Wired(p) && s in p.slots && p.slots[s].active.None?
    ensures Wired(RetireSlot(p, s)) && Extends(p, RetireSlot(p, s)) && NoPage(p, RetireSlot(p, s))
  {
    var q := RetireSlot(p, s);
    assert q.slots.Keys == p.slots.Keys;
    assert |q.slots.Keys| == |q.slots| && |p.slots.Keys| == |p.slots|;
    forall t | t in q.slots ensures SlotWired(q, t) { assert SlotWired(p, t); }
    forall j | j in q.jobs ensures JobWired(q, j) { assert JobWired(p, j); }
  }

  lemma {:induction false} RemoveKeepsWired(p: Pool, s: SlotId)
    requires Wired(p) && s in p.slots && p.slots[s].active.None?
    ensures var q := p.(slots := p.slots - {s}); Wired(q) && Extends(p, q) && NoPage(p, q)
  {
    var q := p.(slots := p.slots - {s});
    assert q.slots.Keys == p.slots.Keys - {s};
    assert |q.slots.Keys| == |q.slots| && |p.slots.Keys| == |p.slots|;
    forall t | t in q.slots ensures SlotWired(q, t) { assert SlotWired(p, t); }
    forall j | j in q.jobs ensures JobWired(q, j) { assert JobWired(p, j); }
  }

  lemma {:induction false} AssignKeepsWired(p: Pool, s: SlotId, env: Env)
    requires Wired(p) && !p.closed && p.queue != [] && s in p.slots && Idle(p.slots[s])
    ensures var q := Assign(p, s, env);
      Wired(q) && Extends(p, q) && NoPage(p, q) && !q.closed
  {
    var h := p.queue[0];
    assert JobWired(p, h) && h in p.queue;
    StartKeepsWired(p, s);
    if h in env.postFails {
      EndActiveKeepsWired(Start(p, s), s, Failed(RequestNotPosted));
      RetireKeepsWired(EndActive(Start(p, s), s, Failed(RequestNotPosted)), s);
    }
  }

  lemma {:induction false} DropHeadKeepsWired(p: Pool, code: ErrorCode)
    requires Wired(p) && !p.closed && p.queue != []
    ensures var q := Settle(p.(queue := p.queue[1..]), p.queue[0], Failed(code));
      Wired(q) && Extends(p, q) && NoPage(p, q) && !q.closed
  {
    var h := p.queue[0];
    var q := Settle(p.(queue := p.queue[1..]), h, Failed(code));
    assert JobWired(p, h) && h in p.queue;
    OrderedParts(p.started, p.queue, p.nextJobId);
    OrderedPop(p.started, p.queue, p.nextJobId);
    forall t | t in q.slots ensures SlotWired(q, t) { assert SlotWired(p, t); }
    forall j | j in q.jobs ensures JobWired(q, j) {
      assert JobWired(p, j);
    }
  }

  lemma {:induction false} ExtendsTransitive(p: Pool, q: Pool, r: Pool)
    requires Extends(p, q) && Extends(q, r)
    ensures Extends(p, r)
    ensures NoPage(p, q) && NoPage(q, r) ==> NoPage(p, r)
  {
  }

  lemma {:induction false} DispatchOnceKeepsWired(p: Pool, env: Env)
    requires Wired(p) && !Quiet(p)
    ensures var q := DispatchOnce(p, env);
      Wired(q) && Extends(p, q) && NoPage(p, q) && !q.closed
  {
    match FirstIdle(p.slots, 0, p.nextSlotId)
    case Some(s) => AssignKeepsWired(p, s, env);
    case None =>
      if p.queue[0] in env.spawnFails {
        DropHeadKeepsWired(p, WorkerNotCreated);
      } else if p.queue[0] in env.wireFails {
        var q := Spawn(p);
        SpawnKeepsWired(p);
        DropHeadKeepsWired(q, WorkerNotCreated);
        ExtendsTransitive(p, q, Settle(q.(queue := q.queue[1..]), q.queue[0], Failed(WorkerNotCreated)));
      } else {
        var q := Spawn(p);
        SpawnKeepsWired(p);
        AssignKeepsWired(q, p.nextSlotId, env);
        ExtendsTransitive(p, q, Assign(q, p.nextSlotId, env));
      }
  }

  lemma {:induction false} QuietIsConserved(p: Pool)
    requires Wired(p)
    ensures Quiet(p) <==> Conserved(p) && (p.closed || p.queue == [] || !HasCapacity(p))
  {
    forall s | s in p.slots ensures s < p.nextSlotId { assert SlotWired(p, s); }
  }

  /** The dispatch loop leaves work waiting only when every slot is taken. */
  lemma {:induction false} DispatchConserves(p: Pool, env: Env)
    requires Wired(p)
    ensures var q := Dispatch(p, env);
      && Wired(q) && Conserved(q) && Extends(p, q) && NoPage(p, q)
      && q.closed == p.closed && |q.queue| <= |p.queue|
    ensures !p.closed && HasCapacity(p) && |p.queue| <= 1 ==> Dispatch(p, env).queue == []
    decreases |p.queue|
  {
    QuietIsConserved(p);
    if !Quiet(p) {
      var q := DispatchOnce(p, env);
      DispatchOnceKeepsWired(p, env);
      DispatchConserves(q, env);
      ExtendsTransitive(p, q, Dispatch(p, env));
    }
  }

  lemma {:induction false} EnqueueExtends(p: Pool)
    requires Wired(p) && !p.closed
    ensures Extends(p, Enqueue(p)) && NoPage(p, Enqueue(p))
  {
    assert p.nextJobId !in p.jobs;
  }

  lemma {:induction false} EnqueueKeepsWired(p: Pool)
    requires Wired(p) && !p.closed
    ensures Wired(Enqueue(p)) && Extends(p, Enqueue(p)) && NoPage(p, Enqueue(p))
  {
    var q := Enqueue(p);
    EnqueueExtends(p);
    OrderedPush(p.started, p.queue, p.nextJobId);
    forall t | t in q.slots ensures SlotWired(q, t) { assert SlotWired(p, t); }
    forall j | j in q.jobs ensures JobWired(q, j) {
      if j != p.nextJobId { assert JobWired(p, j); }
      else { assert q.queue[|p.queue|] == j; }
    }
  }

  lemma {:induction false} CancelQueuedIsWired(p: Pool, j: JobId, queue: seq<JobId>, code: ErrorCode)
    requires Wired(p) && j in p.jobs && p.jobs[j].state == Queued
    requires Ordered(p.started, queue, p.nextJobId) && forall i :: i in queue <==> i in p.queue && i != j
    ensures Wired(Settle(p.(queue := queue), j, Failed(code)))
  {
    var q := Settle(p.(queue := queue), j, Failed(code));
    assert forall k :: 0 <= k < |queue| ==> queue[k] in queue;
    forall t | t in q.slots ensures SlotWired(q, t) { assert SlotWired(p, t); }
    forall i | i in q.jobs ensures JobWired(q, i) { assert JobWired(p, i); }
  }

  lemma {:induction false} CancelQueuedKeepsWired(p: Pool, j: JobId, code: ErrorCode)
    requires Wired(p) && j in p.jobs && p.jobs[j].state == Queued
    ensures var q := Cancel(p, j, code);
      Wired(q) && Extends(p, q) && NoPage(p, q) && q.slots == p.slots && |q.queue| < |p.queue|
  {
    assert JobWired(p, j);
    OrderedWithout(p.started, p.queue, p.nextJobId, j);
    CancelQueuedIsWired(p, j, Without(p.queue, j), code);
  }

  lemma {:induction false} NoIdleAfterRetiring(p: Pool, s: SlotId, code: ErrorCode)
    requires Wired(p) && s in p.slots && Conserved(p)
    ensures Conserved(EndAndRetire(p, s, code)) && EndAndRetire(p, s, code).queue == p.queue
  {
    var q := EndAndRetire(p, s, code);
    assert SlotWired(p, s);
    assert q.slots.Keys == p.slots.Keys;
    assert |q.slots.Keys| == |q.slots| && |p.slots.Keys| == |p.slots|;
    forall t | t in q.slots && Idle(q.slots[t]) ensures Idle(p.slots[t]) {}
  }

  lemma {:induction false} EndAndRetireKeepsInv(p: Pool, s: SlotId, code: ErrorCode)
    requires Inv(p) && s in p.slots
    ensures var q := EndAndRetire(p, s, code); Inv(q) && Extends(p, q) && NoPage(p, q)
  {
    var q := EndActive(p, s, Failed(code));
    EndActiveKeepsWired(p, s, Failed(code));
    RetireKeepsWired(q, s);
    ExtendsTransitive(p, q, RetireSlot(q, s));
    NoIdleAfterRetiring(p, s, code);
  }

  lemma {:induction false} RetireActiveIs(p: Pool, j: JobId, s: SlotId, code: ErrorCode)
    requires j in p.jobs && p.jobs[j].slot == Some(s) && s in p.slots && !p.slots[s].retiring && p.slots[s].active == Some(j)
    ensures RetireActive(p, j, Failed(code)) == EndAndRetire(p, s, code)
  {
  }

  lemma {:induction false} CancelActiveKeepsInv(p: Pool, j: JobId, code: ErrorCode)
    requires Inv(p) && j in p.jobs && p.jobs[j].state == Active
    ensures var q := RetireActive(p, j, Failed(code)); Inv(q) && Extends(p, q) && NoPage(p, q)
  {
    assert JobWired(p, j);
    var s := p.jobs[j].slot.value;
    assert SlotWired(p, s);
    EndAndRetireKeepsInv(p, s, code);
    RetireActiveIs(p, j, s, code);
  }

  /** Aborting or timing out: the job leaves the queue, or its slot is retired. */
  lemma {:induction false} CancelKeepsInv(p: Pool, j: JobId, code: ErrorCode)
    requires Inv(p)
    ensures var q := Cancel(p, j, code); Inv(q) && Extends(p, q) && NoPage(p, q)
  {
    if j in p.jobs {
      match p.jobs[j].state
      case Queued => CancelQueuedKeepsWired(p, j, code);
      case Active => CancelActiveKeepsInv(p, j, code);
      case Settled =>
    }
  }

  lemma {:induction false} MessageKeepsInv(p: Pool, s: SlotId, id: JobId, reply: Reply, env: Env)
    requires Inv(p)
    ensures var q := Step(p, Message(s, id, reply, env)); Inv(q) && Extends(p, q)
  {
    if s in p.slots {
      var q := EndActive(p, s, OutcomeOf(reply));
      EndActiveKeepsWired(p, s, OutcomeOf(reply));
      DispatchConserves(q, env);
      ExtendsTransitive(p, q, Dispatch(q, env));
    }
  }

  lemma {:induction false} SetTwice<K, V>(m: map<K, V>, k: K, v: V, w: V)
    ensures m[k := v][k := w] == m[k := w] && m[k := v] - {k} == m - {k}
  {
  }

  /** Marking a slot as retiring before or after its active job ends is the same. */
  lemma {:induction false} RetiringFirst(p: Pool, s: SlotId, outcome: Outcome)
    requires s in p.slots && !p.slots[s].terminating
    ensures var p1 := p.(slots := p.slots[s := p.slots[s].(retiring := true)]);
      var q, q1 := EndActive(p, s, outcome), EndActive(p1, s, outcome);
      RetireSlot(q1, s) == RetireSlot(q, s) && q1.(slots := q1.slots - {s}) == q.(slots := q.slots - {s})
  {
    var slot := p.slots[s];
    var marked, ended, done := slot.(retiring := true), slot.(active := None), slot.(retiring := true, active := None);
    var retired := done.(terminating := true);
    SetTwice(p.slots, s, marked, done);
    SetTwice(p.slots, s, marked, retired);
    SetTwice(p.slots, s, ended, retired);
    SetTwice(p.slots, s, done, retired);
  }

  lemma {:induction false} WorkerErrorIs(p: Pool, s: SlotId)
    requires s in p.slots && !p.slots[s].retiring && !p.slots[s].terminating
    ensures Step(p, WorkerError(s)) == EndAndRetire(p, s, WorkerFailed)
  {
    RetiringFirst(p, s, Failed(WorkerFailed));
  }

  lemma {:induction false} WorkerErrorKeepsInv(p: Pool, s: SlotId)
    requires Inv(p)
    ensures var q := Step(p, WorkerError(s)); Inv(q) && Extends(p, q) && NoPage(p, q)
  {
    if s in p.slots && !p.slots[s].retiring {
      assert SlotWired(p, s);
      EndAndRetireKeepsInv(p, s, WorkerFailed);
      WorkerErrorIs(p, s);
    }
  }

  lemma {:induction false} WorkerExitKeepsInv(p: Pool, s: SlotId, env: Env)
    requires Inv(p)
    ensures var q := Step(p, WorkerExit(s, env)); Inv(q) && Extends(p, q) && NoPage(p, q)
  {
    if s in p.slots && !p.slots[s].retiring {
      var q := EndActive(p, s, Failed(WorkerExited));
      var r := q.(slots := q.slots - {s});
      assert SlotWired(p, s);
      EndActiveKeepsWired(p, s, Failed(WorkerExited));
      RemoveKeepsWired(q, s);
      ExtendsTransitive(p, q, r);
      DispatchConserves(r, env);
      ExtendsTransitive(p, r, Dispatch(r, env));
      RetiringFirst(p, s, Failed(WorkerExited));
    }
  }

  lemma {:induction false} TerminationDoneKeepsInv(p: Pool, s: SlotId, env: Env)
    requires Inv(p)
    ensures var q := Step(p, TerminationDone(s, env)); Inv(q) && Extends(p, q) && NoPage(p, q)
  {
    if s in p.slots && p.slots[s].terminating {
      var r := p.(slots := p.slots - {s});
      assert SlotWired(p, s);
      RemoveKeepsWired(p, s);
      DispatchConserves(r, env);
      ExtendsTransitive(p, r, Dispatch(r, env));
    }
  }

  /**
   A job is taken in past a full queue only when there is room among the slots, and
   then the dispatch loop takes it out of the queue again.
   */
  lemma {:induction false} ExtractKeepsInv(p: Pool, signalAborted: bool, env: Env)
    requires Inv(p)
    ensures var q := Step(p, Extract(signalAborted, env)); Inv(q) && Extends(p, q) && NoPage(p, q)
  {
    if Refusal(p, signalAborted).None? {
      var q := Enqueue(p);
      EnqueueKeepsWired(p);
      DispatchConserves(q, env);
      ExtendsTransitive(p, q, Dispatch(q, env));
    }
  }

  ghost predicate SameButSlots(p: Pool, q: Pool) {
    && q.closed == p.closed && q.queue == p.queue && q.started == p.started
    && q.nextSlotId == p.nextSlotId && q.nextJobId == p.nextJobId
    && q.jobs.Keys == p.jobs.Keys && q.slots.Keys == p.slots.Keys
  }

  /** Closing a slot does not look at the `closed` flag. */
  lemma {:induction false} CloseSlotOpenOrNot(p: Pool, s: SlotId)
    requires s in p.slots
    ensures EndAndRetire(p, s, PoolClosed).(closed := false) == EndAndRetire(p.(closed := false), s, PoolClosed)
  {
  }

  /** What closing slots does to the rest of the pool. */
  ghost predicate Closes(p: Pool, q: Pool) {
    Wired(q) && SameButSlots(p, q) && Extends(p, q) && NoPage(p, q)
  }

  lemma {:induction false} ClosesTransitive(p: Pool, q: Pool, r: Pool)
    requires Closes(p, q) && Closes(q, r)
    ensures Closes(p, r)
  {
    ExtendsTransitive(p, q, r);
  }

  lemma {:induction false} CloseSlotKeepsWired(p: Pool, s: SlotId)
    requires Wired(p) && s in p.slots
    ensures var q := EndAndRetire(p, s, PoolClosed);
      Closes(p, q) && q.slots[s].retiring && forall t :: t in p.slots && t != s ==> q.slots[t] == p.slots[t]
  {
    var q := EndActive(p, s, Failed(PoolClosed));
    EndActiveKeepsWired(p, s, Failed(PoolClosed));
    RetireKeepsWired(q, s);
    ExtendsTransitive(p, q, RetireSlot(q, s));
    assert SlotWired(RetireSlot(q, s), s);
  }

  lemma {:induction false} CloseSlotsStep(p: Pool, from: SlotId)
    requires from < p.nextSlotId
    ensures CloseSlots(p, from) == CloseSlots(if from in p.slots then EndAndRetire(p, from, PoolClosed) else p, from + 1)
  {
  }

  lemma {:induction false} CloseSlotKeepsBounds(p: Pool, s: SlotId)
    requires s in p.slots
    ensures var q := EndAndRetire(p, s, PoolClosed); q.nextSlotId == p.nextSlotId && q.closed == p.closed
  {
  }

  lemma {:induction false} CloseSlotsOpenOrNot(p: Pool, from: SlotId)
    ensures CloseSlots(p, from).(closed := false) == CloseSlots(p.(closed := false), from)
    ensures CloseSlots(p, from).closed == p.closed
    decreases p.nextSlotId - from
  {
    if from < p.nextSlotId {
      var open := p.(closed := false);
      CloseSlotsStep(p, from);
      CloseSlotsStep(open, from);
      if from in p.slots {
        CloseSlotOpenOrNot(p, from);
        CloseSlotKeepsBounds(p, from);
        CloseSlotsOpenOrNot(EndAndRetire(p, from, PoolClosed), from + 1);
      } else {
        CloseSlotsOpenOrNot(p, from + 1);
      }
    }
  }

  ghost predicate RetiredBelow(p: Pool, from: SlotId) {
    forall s :: s in p.slots && s < from ==> p.slots[s].retiring
  }

  lemma {:induction false} ClosesNothing(p: Pool)
    requires Wired(p)
    ensures Closes(p, p)
  {
  }

  lemma {:induction false} CloseSlotsKeepsWired(p: Pool, from: SlotId)
    requires Wired(p) && from <= p.nextSlotId && RetiredBelow(p, from)
    ensures var q := CloseSlots(p, from); Closes(p, q) && RetiredBelow(q, p.nextSlotId)
    decreases p.nextSlotId - from
  {
    if from == p.nextSlotId {
      ClosesNothing(p);
    } else if from in p.slots {
      var q := EndAndRetire(p, from, PoolClosed);
      CloseSlotKeepsWired(p, from);
      CloseSlotsKeepsWired(q, from + 1);
      ClosesTransitive(p, q, CloseSlots(q, from + 1));
    } else {
      CloseSlotsKeepsWired(p, from + 1);
    }
  }

  lemma {:induction false} SettleQueueKeepsWired(p: Pool)
    requires Wired(p) && !p.closed
    ensures var r := SettleAll(p.(queue := []), p.queue, Failed(PoolClosed));
      && Wired(r) && r.queue == [] && !r.closed && r.started == p.started && Extends(p, r) && NoPage(p, r)
      && r.nextSlotId == p.nextSlotId && r.slots == p.slots && r.jobs.Keys == p.jobs.Keys
  {
    var r := SettleAll(p.(queue := []), p.queue, Failed(PoolClosed));
    OrderedParts(p.started, p.queue, p.nextJobId);
    assert p.started + [] == p.started;
    forall s | s in r.slots ensures SlotWired(r, s) {
      assert SlotWired(p, s);
      if p.slots[s].active.Some? { assert JobWired(p, p.slots[s].active.value); }
    }
    forall j | j in r.jobs ensures JobWired(r, j) { assert JobWired(p, j); }
  }

  lemma {:induction false} SettleAllOpenOrNot(p: Pool, js: seq<JobId>, outcome: Outcome)
    ensures SettleAll(p, js, outcome).(closed := false) == SettleAll(p.(closed := false), js, outcome)
    decreases |js|
  {
    if js != [] { SettleAllOpenOrNot(Settle(p, js[0], outcome), js[1..], outcome); }
  }

  /** With the queue settled and every slot retired, the closed pool is drained. */
  lemma {:induction false} RetiredIsDrained(p: Pool)
    requires Wired(p) && p.queue == [] && forall s :: s in p.slots ==> p.slots[s].retiring
    ensures Wired(p.(closed := true))
  {
    var q := p.(closed := true);
    forall s | s in q.slots ensures SlotWired(q, s) && q.slots[s].active.None? { assert SlotWired(p, s); }
    forall j | j in q.jobs ensures JobWired(q, j) && q.jobs[j].state == Settled { assert JobWired(p, j); }
  }

  lemma {:induction false} CloseKeepsInv(p: Pool)
    requires Inv(p)
    ensures var q := Step(p, Close);
      Inv(q) && Extends(p, q) && NoPage(p, q) && q.closed && q.started == p.started && q.jobs.Keys == p.jobs.Keys
  {
    if !p.closed {
      var outcome := Failed(PoolClosed);
      var r := SettleAll(p.(queue := []), p.queue, outcome);
      SettleQueueKeepsWired(p);
      CloseSlotsKeepsWired(r, 0);
      var q := CloseSlots(r, 0);
      ExtendsTransitive(p, r, q);
      forall s | s in q.slots ensures q.slots[s].retiring { assert SlotWired(q, s); }
      RetiredIsDrained(q);
      SettleAllOpenOrNot(p.(closed := true, queue := []), p.queue, outcome);
      CloseSlotsOpenOrNot(SettleAll(p.(closed := true, queue := []), p.queue, outcome), 0);
      assert Step(p, Close) == q.(closed := true);
    }
  }

  lemma {:induction false} StepKeepsInv(p: Pool, e: Event)
    requires Inv(p)
    ensures Inv(Step(p, e)) && Extends(p, Step(p, e))
    ensures !e.Message? ==> NoPage(p, Step(p, e))
  {
    match e
    case Extract(signalAborted, env) => ExtractKeepsInv(p, signalAborted, env);
    case Message(s, id, reply, env) => MessageKeepsInv(p, s, id, reply, env);
    case WorkerError(s) => WorkerErrorKeepsInv(p, s);
    case WorkerExit(s, env) => WorkerExitKeepsInv(p, s, env);
    case Abort(j) => CancelKeepsInv(p, j, Aborted);
    case Timeout(j) => CancelKeepsInv(p, j, TimedOut);
    case TerminationDone(s, env) => TerminationDoneKeepsInv(p, s, env);
    case Close => CloseKeepsInv(p);
  }

  // ---------------------------------------------------------------------------
  // Every run
  // ---------------------------------------------------------------------------

  ghost predicate StepAt(b: seq<Pool>, es: seq<Event>, i: nat)
    requires 0 < i < |b| == |es| + 1
  {
    b[i] == Step(b[i - 1], es[i - 1])
  }

  /** `b` lists the states between the handlers `es` of one run, from a new pool on. */
  ghost predicate Behavior(b: seq<Pool>, es: seq<Event>) {
    && |b| == |es| + 1
    && (exists size: nat, maxQueue: nat :: size >= 1 && b[0] == Init(size, maxQueue))
    && (forall i :: 0 < i < |b| ==> StepAt(b, es, i))
  }

  lemma {:induction false} BehaviorKeepsInv(b: seq<Pool>, es: seq<Event>, i: nat)
    requires Behavior(b, es) && i < |b|
    ensures Inv(b[i])
  {
    if i == 0 {
      InitKeepsInv(b[0].size, b[0].maxQueue);
    } else {
      BehaviorKeepsInv(b, es, i - 1);
      assert StepAt(b, es, i);
      StepKeepsInv(b[i - 1], es[i - 1]);
    }
  }

  /** A state that some behavior ends in. */
  ghost predicate Reachable(p: Pool) {
    exists b, es :: Behavior(b, es) && b[|es|] == p
  }

  lemma {:induction false} InitIsReachable(size: nat, maxQueue: nat)
    requires size >= 1
    ensures Reachable(Init(size, maxQueue))
  {
    var b, es: seq<Event> := [Init(size, maxQueue)], [];
    assert Behavior(b, es);
    assert b[|es|] == Init(size, maxQueue);
  }

  lemma {:induction false} LongerBehavior(b: seq<Pool>, es: seq<Event>, e: Event)
    requires Behavior(b, es)
    ensures Behavior(b + [Step(b[|es|], e)], es + [e])
  {
    var longer, more := b + [Step(b[|es|], e)], es + [e];
    forall i | 0 < i < |longer| ensures StepAt(longer, more, i) {
      if i < |b| { assert StepAt(b, es, i); }
    }
  }

  lemma {:induction false} StepIsReachable(p: Pool, e: Event)
    requires Reachable(p)
    ensures Reachable(Step(p, e))
  {
    var b, es :| Behavior(b, es) && b[|es|] == p;
    var longer, more := b + [Step(p, e)], es + [e];
    LongerBehavior(b, es, e);
    assert longer[|more|] == Step(p, e);
  }

  lemma {:induction false} ReachableIsInv(p: Pool)
    requires Reachable(p)
    ensures Inv(p)
  {
    var b, es :| Behavior(b, es) && b[|es|] == p;
    BehaviorKeepsInv(b, es, |es|);
  }

  lemma {:induction false} BehaviorStepExtends(b: seq<Pool>, es: seq<Event>, k: nat)
    requires Behavior(b, es) && 0 < k < |b|
    ensures Extends(b[k - 1], b[k])
  {
    BehaviorKeepsInv(b, es, k - 1);
    assert StepAt(b, es, k);
    StepKeepsInv(b[k - 1], es[k - 1]);
  }

  /** Each state of a list extends the one before it. */
  ghost predicate Growing(b: seq<Pool>) {
    forall k :: 0 < k < |b| ==> Extends(b[k - 1], b[k])
  }

  lemma {:induction false} GrowingExtends(b: seq<Pool>, i: nat, k: nat)
    requires Growing(b) && i <= k < |b|
    ensures Extends(b[i], b[k])
  {
    if i < k {
      GrowingExtends(b, i, k - 1);
    }
  }

  lemma {:induction false} BehaviorExtends(b: seq<Pool>, es: seq<Event>, i: nat, k: nat)
    requires Behavior(b, es) && i <= k < |b|
    ensures Extends(b[i], b[k])
  {
    forall n | 0 < n < |b| ensures Extends(b[n - 1], b[n]) {
      BehaviorStepExtends(b, es, n);
    }
    GrowingExtends(b, i, k);
  }

  /**
   Work conservation: in every reachable state of an open pool in which a job is
   waiting there are exactly `size` slots and each of them is active or retiring;
   so the queue is never longer than `maxQueue`.
   */
  lemma {:induction false} WorkConservation(b: seq<Pool>, es: seq<Event>, i: nat)
    requires Behavior(b, es) && i < |b|
    ensures |b[i].slots| <= b[0].size && |b[i].queue| <= b[0].maxQueue
    ensures !b[i].closed && b[i].queue != [] ==>
      && |b[i].slots| == b[0].size
      && forall s :: s in b[i].slots ==> b[i].slots[s].active.Some? != b[i].slots[s].retiring
  {
    BehaviorKeepsInv(b, es, i);
    BehaviorExtends(b, es, 0, i);
    var p := b[i];
    forall s | s in p.slots && !HasIdle(p.slots)
      ensures p.slots[s].active.Some? != p.slots[s].retiring
    {
      assert SlotWired(p, s) && !Idle(p.slots[s]);
    }
  }

  /** Whether job `j` is the active job of slot `s`. */
  predicate Holds(p: Pool, s: SlotId, j: JobId) {
    s in p.slots && p.slots[s].active == Some(j)
  }

  ghost predicate HeldByOne(p: Pool, j: JobId) {
    exists s :: Holds(p, s, j) && !p.slots[s].retiring && forall t :: Holds(p, t, j) ==> t == s
  }

  ghost predicate HeldByNone(p: Pool, j: JobId) {
    forall s :: !Holds(p, s, j)
  }

  /** The three places a job can be in. */
  ghost predicate InOnePlace(p: Pool, j: JobId) {
    && j in p.jobs
    && match p.jobs[j].state
       case Queued => multiset(p.queue)[j] == 1 && HeldByNone(p, j) && p.jobs[j].outcomes == []
       case Active => j !in p.queue && HeldByOne(p, j) && p.jobs[j].outcomes == []
       case Settled => j !in p.queue && HeldByNone(p, j) && |p.jobs[j].outcomes| == 1
  }

  lemma {:induction false} InvPlaces(p: Pool, j: JobId)
    requires Inv(p) && 1 <= j < p.nextJobId
    ensures InOnePlace(p, j)
  {
    assert JobWired(p, j);
    forall s: SlotId | Holds(p, s, j) ensures p.jobs[j].slot == Some(s) && p.jobs[j].state == Active {
      assert SlotWired(p, s);
    }
    match p.jobs[j].state
    case Queued =>
      OrderedParts(p.started, p.queue, p.nextJobId);
      IncreasingOnce(p.queue, j);
    case Active =>
      var s := p.jobs[j].slot.value;
      assert Holds(p, s, j) && SlotWired(p, s);
    case Settled =>
  }

  /**
   Every job ever accepted is in one of three places: once in the queue, in the hands
   of exactly one slot that is not retiring, or settled, exactly once, and in neither.
   */
  lemma {:induction false} JobsAreInOnePlace(b: seq<Pool>, es: seq<Event>, i: nat, j: JobId)
    requires Behavior(b, es) && i < |b| && 1 <= j < b[i].nextJobId
    ensures InOnePlace(b[i], j)
  {
    BehaviorKeepsInv(b, es, i);
    InvPlaces(b[i], j);
  }

  lemma {:induction false} InvOrder(p: Pool)
    requires Inv(p)
    ensures Increasing(p.started)
    ensures forall i, j :: i in p.started && j in p.queue ==> i < j
    ensures forall j :: j in p.jobs && p.jobs[j].state == Active ==> j in p.started
  {
    OrderedParts(p.started, p.queue, p.nextJobId);
  }

  /** Jobs start in the order they were accepted, and never again after they started. */
  lemma {:induction false} JobsStartInOrder(b: seq<Pool>, es: seq<Event>, i: nat, k: nat)
    requires Behavior(b, es) && i <= k < |b|
    ensures Increasing(b[k].started) && b[i].started <= b[k].started
    ensures forall j, l :: j in b[k].started && l in b[k].queue ==> j < l
    ensures forall j :: j in b[k].jobs && b[k].jobs[j].state == Active ==> j in b[k].started
  {
    BehaviorExtends(b, es, i, k);
    BehaviorKeepsInv(b, es, k);
    InvOrder(b[k]);
  }

  /** A settled job stays settled, with the one outcome it was given. */
  lemma {:induction false} SettledIsFinal(b: seq<Pool>, es: seq<Event>, i: nat, k: nat, j: JobId)
    requires Behavior(b, es) && i <= k < |b|
    requires j in b[i].jobs && b[i].jobs[j].state == Settled
    ensures j in b[k].jobs && b[k].jobs[j] == b[i].jobs[j]
  {
    BehaviorExtends(b, es, i, k);
  }

  lemma {:induction false} InvClosed(p: Pool)
    requires Inv(p) && p.closed
    ensures p.queue == []
    ensures forall j :: j in p.jobs ==> p.jobs[j].state == Settled && |p.jobs[j].outcomes| == 1
    ensures forall s :: s in p.slots ==> p.slots[s].active.None? && p.slots[s].retiring
  {
    forall j | j in p.jobs ensures |p.jobs[j].outcomes| == 1 { assert JobWired(p, j); }
    forall s | s in p.slots ensures p.slots[s].active.None? { assert SlotWired(p, s); }
  }

  /** Closing settles every job; afterwards no job is accepted, started or changed. */
  lemma {:induction false} CloseIsFinal(b: seq<Pool>, es: seq<Event>, i: nat, k: nat)
    requires Behavior(b, es) && i < k < |b| && es[i] == Close
    ensures b[k].closed && b[k].queue == []
    ensures b[k].jobs == b[i + 1].jobs && b[k].jobs.Keys == b[i].jobs.Keys && b[k].started == b[i].started
    ensures forall j :: j in b[k].jobs ==> b[k].jobs[j].state == Settled && |b[k].jobs[j].outcomes| == 1
    ensures forall s :: s in b[k].slots ==> b[k].slots[s].active.None? && b[k].slots[s].retiring
  {
    assert StepAt(b, es, i + 1);
    BehaviorKeepsInv(b, es, i);
    CloseKeepsInv(b[i]);
    BehaviorExtends(b, es, i + 1, k);
    BehaviorKeepsInv(b, es, k);
    InvClosed(b[k]);
  }

  /** The event by which job `j` gets `page`: its own slot posts it under its number. */
  predicate Delivers(p: Pool, e: Event, j: JobId, page: string) {
    e.Message? && e.id == j && Holds(p, e.slot, j) && !e.reply.error && e.reply.result == Some(page)
  }

  predicate HasPage(p: Pool, j: JobId, page: string) {
    j in p.jobs && p.jobs[j].outcomes == [Extracted(page)]
  }

  lemma {:induction false} EndActivePage(p: Pool, s: SlotId, outcome: Outcome, j: JobId, page: string)
    requires Wired(p) && s in p.slots && HasPage(EndActive(p, s, outcome), j, page) && !HasPage(p, j, page)
    ensures Holds(p, s, j) && outcome == Extracted(page)
  {
    assert SlotWired(p, s) && JobWired(p, j);
    assert EndActive(p, s, outcome).jobs[j].outcomes[0] == outcome;
  }

  lemma {:induction false} PageIsExtracted(p: Pool, j: JobId, page: string)
    requires HasPage(p, j, page)
    ensures p.jobs[j].outcomes != [] && p.jobs[j].outcomes[0].Extracted?
  {
  }

  lemma {:induction false} NoPageMeans(p: Pool, q: Pool, j: JobId, page: string)
    requires NoPage(p, q) && HasPage(q, j, page)
    ensures HasPage(p, j, page)
  {
    PageIsExtracted(q, j, page);
  }

  /** Dispatching gives nobody a page. */
  lemma {:induction false} DispatchPage(p: Pool, env: Env, j: JobId, page: string)
    requires Wired(p) && HasPage(Dispatch(p, env), j, page)
    ensures HasPage(p, j, page)
  {
    DispatchConserves(p, env);
    NoPageMeans(p, Dispatch(p, env), j, page);
  }

  lemma {:induction false} MessagePageIsDelivered(p: Pool, s: SlotId, id: JobId, reply: Reply, env: Env, j: JobId, page: string)
    requires Inv(p) && !HasPage(p, j, page) && HasPage(Step(p, Message(s, id, reply, env)), j, page)
    ensures Delivers(p, Message(s, id, reply, env), j, page)
  {
    if s in p.slots && !p.slots[s].retiring && p.slots[s].active == Some(id) {
      EndActiveIsWired(p, s, OutcomeOf(reply));
      DispatchPage(EndActive(p, s, OutcomeOf(reply)), env, j, page);
      EndActivePage(p, s, OutcomeOf(reply), j, page);
    }
  }

  lemma {:induction false} OtherStepsGiveNoPage(p: Pool, e: Event, j: JobId, page: string)
    requires Inv(p) && !e.Message? && HasPage(Step(p, e), j, page)
    ensures HasPage(p, j, page)
  {
    StepKeepsInv(p, e);
    NoPageMeans(p, Step(p, e), j, page);
  }

  lemma {:induction false} StepPageIsDelivered(p: Pool, e: Event, j: JobId, page: string)
    requires Inv(p) && HasPage(Step(p, e), j, page) && !HasPage(p, j, page)
    ensures Delivers(p, e, j, page)
  {
    if e.Message? {
      MessagePageIsDelivered(p, e.slot, e.id, e.reply, e.env, j, page);
    } else {
      OtherStepsGiveNoPage(p, e, j, page);
    }
  }

  /**
   A job is resolved with a page only because the slot that held it posted that page
   under its number, at some step of the run.
   */
  lemma {:induction false} PagesComeFromTheOwnWorker(b: seq<Pool>, es: seq<Event>, i: nat, j: JobId, page: string)
    requires Behavior(b, es) && i < |b| && HasPage(b[i], j, page)
    ensures exists k :: 0 <= k < i && Delivers(b[k], es[k], j, page)
  {
    if i > 0 {
      if HasPage(b[i - 1], j, page) {
        PagesComeFromTheOwnWorker(b, es, i - 1, j, page);
      } else {
        BehaviorKeepsInv(b, es, i - 1);
        assert StepAt(b, es, i);
        StepPageIsDelivered(b[i - 1], es[i - 1], j, page);
      }
    }
  }

  /**
   `extract` turns a caller away as full exactly when every one of the `size` slots is
   taken and `maxQueue` jobs wait.
   */
  lemma {:induction false} RefusedOnlyWhenFull(b: seq<Pool>, es: seq<Event>, i: nat)
    requires Behavior(b, es) && i < |b| && !b[i].closed
    ensures Refusal(b[i], false) == Some(QueueFull) <==>
      && |b[i].queue| == b[0].maxQueue && |b[i].slots| == b[0].size
      && forall s :: s in b[i].slots ==> !Idle(b[i].slots[s])
  {
    BehaviorKeepsInv(b, es, i);
    BehaviorExtends(b, es, 0, i);
  }
}
