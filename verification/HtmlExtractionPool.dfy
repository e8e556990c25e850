/**
 The closure of `createHtmlExtractionPool` as an object: its variables are fields, and
 its functions and worker listeners are methods that update them in place. Every
 method is proved to make exactly the step that `ExtractionPool` describes.
 */
module HtmlExtraction {
  import opened Wrappers
  import FifoQueue
  import Spec = ExtractionPool

  class HtmlExtractionPool {
    const size: nat
    const maxQueue: nat
    var slots: map<Spec.SlotId, Spec.Slot>
    var queue: seq<Spec.JobId>
    var jobs: map<Spec.JobId, Spec.Job>
    var nextJobId: Spec.JobId
    var nextSlotId: Spec.SlotId
    var closed: bool
    ghost var started: seq<Spec.JobId>

    ghost function State(): Spec.Pool
      reads this
    {
      Spec.Pool(size, maxQueue, slots, queue, jobs, nextJobId, nextSlotId, closed, started)
    }

    /** The calls so far were a behavior of the machine. */
    ghost predicate Lawful()
      reads this
    {
      Spec.Reachable(State())
    }

    constructor (size: nat, maxQueue: nat)
      ensures State() == Spec.Init(size, maxQueue) && (size >= 1 ==> Lawful())
    {
      this.size, this.maxQueue := size, maxQueue;
      slots, queue, jobs := map[], [], map[];
      nextJobId, nextSlotId, closed, started := 1, 1, false, [];
      if size >= 1 { Spec.InitIsReachable(size, maxQueue); }
    }

    method Settle(j: Spec.JobId, outcome: Spec.Outcome)
      modifies this
      ensures State() == Spec.Settle(old(State()), j, outcome)
    {
      if j !in jobs || jobs[j].state == Spec.Settled { return; }
      jobs := jobs[j := Spec.Job(Spec.Settled, None, jobs[j].outcomes + [outcome])];
    }

    method RetireSlot(s: Spec.SlotId)
      requires s in slots
      modifies this
      ensures State() == Spec.RetireSlot(old(State()), s)
    {
      if slots[s].terminating { return; }
      slots := slots[s := slots[s].(retiring := true)];
      slots := slots[s := slots[s].(terminating := true)];
    }

    /** The first idle slot in insertion order. */
    method FindIdle() returns (r: Option<Spec.SlotId>)
      ensures r == Spec.FirstIdle(slots, 0, nextSlotId)
    {
      var s := 0;
      while s < nextSlotId
        invariant 0 <= s <= nextSlotId
        invariant Spec.FirstIdle(slots, s, nextSlotId) == Spec.FirstIdle(slots, 0, nextSlotId)
      {
        if s in slots && !slots[s].retiring && slots[s].active.None? { return Some(s); }
        s := s + 1;
      }
      r := None;
    }

    /** The body of the loop once a slot is at hand. */
    method Assign(s: Spec.SlotId, env: Spec.Env)
      requires s in slots && queue != []
      modifies this
      ensures State() == Spec.Assign(old(State()), s, env)
    {
      var j := queue[0];
      queue := queue[1..];
      if j !in jobs || jobs[j].state != Spec.Queued { return; }
      slots := slots[s := slots[s].(active := Some(j))];
      jobs := jobs[j := jobs[j].(state := Spec.Active, slot := Some(s))];
      started := started + [j];
      if j in env.postFails {
        slots := slots[s := slots[s].(active := None)];
        Settle(j, Spec.Failed(Spec.RequestNotPosted));
        RetireSlot(s);
      }
    }

    method Spawn() returns (s: Spec.SlotId)
      modifies this
      ensures State() == Spec.Spawn(old(State())) && s == old(nextSlotId) && s in slots
    {
      s := nextSlotId;
      slots := slots[s := Spec.Slot(None, false, false)];
      nextSlotId := nextSlotId + 1;
    }

    /** One round of the loop; `blocked` tells that there is neither an idle slot nor room for one. */
    method DispatchOnce(env: Spec.Env) returns (blocked: bool)
      requires !closed && queue != []
      modifies this
      ensures blocked <==> Spec.Quiet(old(State()))
      ensures State() == if blocked then old(State()) else Spec.DispatchOnce(old(State()), env)
    {
      var slot := FindIdle();
      if slot.None? && |slots| < size {
        if queue[0] in env.spawnFails {
          var failed := queue[0];
          queue := queue[1..];
          Settle(failed, Spec.Failed(Spec.WorkerNotCreated));
          return false;
        }
        var s := Spawn();
        if queue[0] in env.wireFails {
          var failed := queue[0];
          queue := queue[1..];
          Settle(failed, Spec.Failed(Spec.WorkerNotCreated));
          return false;
        }
        slot := Some(s);
      }
      if slot.None? { return true; }
      Assign(slot.value, env);
      blocked := false;
    }

    method Dispatch(env: Spec.Env)
      modifies this
      ensures State() == Spec.Dispatch(old(State()), env)
    {
      if closed { return; }
      while |queue| > 0
        invariant !closed
        invariant Spec.Dispatch(State(), env) == Spec.Dispatch(old(State()), env)
        decreases |queue|
      {
        Spec.DispatchUnfolds(State(), env);
        var blocked := DispatchOnce(env);
        if blocked { return; }
      }
    }

    /** Takes the active job off a slot and settles it. */
    method EndActive(s: Spec.SlotId, outcome: Spec.Outcome)
      requires s in slots
      modifies this
      ensures State() == Spec.EndActive(old(State()), s, outcome)
    {
      if slots[s].active.Some? {
        var ended := slots[s].active.value;
        slots := slots[s := slots[s].(active := None)];
        Settle(ended, outcome);
      }
    }

    method OnMessage(s: Spec.SlotId, id: Spec.JobId, reply: Spec.Reply, env: Spec.Env)
      modifies this
      ensures State() == Spec.Step(old(State()), Spec.Message(s, id, reply, env))
    {
      if s !in slots || slots[s].retiring || slots[s].active.None? || id != slots[s].active.value { return; }
      if reply.error {
        EndActive(s, Spec.Failed(Spec.ExtractionFailed));
      } else if reply.result.Some? {
        EndActive(s, Spec.Extracted(reply.result.value));
      } else {
        EndActive(s, Spec.Failed(Spec.InvalidResponse));
      }
      Dispatch(env);
    }

    method OnError(s: Spec.SlotId)
      modifies this
      ensures State() == Spec.Step(old(State()), Spec.WorkerError(s))
    {
      if s !in slots || slots[s].retiring { return; }
      slots := slots[s := slots[s].(retiring := true)];
      EndActive(s, Spec.Failed(Spec.WorkerFailed));
      RetireSlot(s);
    }

    method OnExit(s: Spec.SlotId, env: Spec.Env)
      modifies this
      ensures State() == Spec.Step(old(State()), Spec.WorkerExit(s, env))
    {
      if s !in slots || slots[s].retiring { return; }
      slots := slots[s := slots[s].(retiring := true)];
      EndActive(s, Spec.Failed(Spec.WorkerExited));
      slots := slots - {s};
      Dispatch(env);
    }

    /** The continuation of a slot's termination promise. */
    method OnTerminated(s: Spec.SlotId, env: Spec.Env)
      modifies this
      ensures State() == Spec.Step(old(State()), Spec.TerminationDone(s, env))
    {
      if s !in slots || !slots[s].terminating { return; }
      slots := slots - {s};
      Dispatch(env);
    }

    method RetireActive(j: Spec.JobId, outcome: Spec.Outcome)
      requires j in jobs
      modifies this
      ensures State() == Spec.RetireActive(old(State()), j, outcome)
    {
      var slot := jobs[j].slot;
      if slot.None? || slot.value !in slots || slots[slot.value].retiring {
        Settle(j, outcome);
        return;
      }
      slots := slots[slot.value := slots[slot.value].(active := None)];
      Settle(j, outcome);
      RetireSlot(slot.value);
    }

    method Cancel(j: Spec.JobId, code: Spec.ErrorCode)
      modifies this
      ensures State() == Spec.Cancel(old(State()), j, code)
    {
      if j !in jobs { return; }
      if jobs[j].state == Spec.Queued {
        var index := FifoQueue.IndexOf(queue, j);
        if index.Some? { queue := queue[..index.value] + queue[index.value + 1..]; }
        Settle(j, Spec.Failed(code));
      } else if jobs[j].state == Spec.Active {
        RetireActive(j, Spec.Failed(code));
      }
    }

    method OnAbort(j: Spec.JobId)
      modifies this
      ensures State() == Spec.Step(old(State()), Spec.Abort(j))
    {
      Cancel(j, Spec.Aborted);
    }

    method OnTimeout(j: Spec.JobId)
      modifies this
      ensures State() == Spec.Step(old(State()), Spec.Timeout(j))
    {
      Cancel(j, Spec.TimedOut);
    }

    /** The refusals of `extract`, in their order. */
    method CheckCapacity(signalAborted: bool) returns (code: Option<Spec.ErrorCode>)
      ensures code == Spec.Refusal(State(), signalAborted)
    {
      if closed { return Some(Spec.PoolClosed); }
      if signalAborted { return Some(Spec.Aborted); }
      var hasCapacity := (exists s :: s in slots && !slots[s].retiring && slots[s].active.None?) || |slots| < size;
      if !hasCapacity && |queue| >= maxQueue { return Some(Spec.QueueFull); }
      code := None;
    }

    method Enqueue() returns (id: Spec.JobId)
      modifies this
      ensures State() == Spec.Enqueue(old(State())) && id == old(nextJobId)
    {
      id := nextJobId;
      jobs := jobs[id := Spec.Job(Spec.Queued, None, [])];
      nextJobId := nextJobId + 1;
      queue := queue + [id];
    }

    method Extract(signalAborted: bool, env: Spec.Env) returns (r: Result<Spec.JobId, Spec.ErrorCode>)
      modifies this
      ensures State() == Spec.Step(old(State()), Spec.Extract(signalAborted, env))
      ensures r == match Spec.Refusal(old(State()), signalAborted)
        case Some(code) => Err(code)
        case None => Ok(old(nextJobId))
    {
      var refused := CheckCapacity(signalAborted);
      if refused.Some? { return Err(refused.value); }
      var id := Enqueue();
      Dispatch(env);
      r := Ok(id);
    }

    method Close()
      modifies this
      ensures State() == Spec.Step(old(State()), Spec.Close)
    {
      if closed { return; }
      closed := true;
      var waiting := queue;
      queue := [];
      var error := Spec.Failed(Spec.PoolClosed);
      ghost var afterFlag := State();
      for k := 0 to |waiting|
        invariant Spec.SettleAll(State(), waiting[k..], error) == Spec.SettleAll(afterFlag, waiting, error)
      {
        Settle(waiting[k], error);
        assert waiting[k..][1..] == waiting[k + 1..];
      }
      assert waiting[|waiting|..] == [];
      ghost var settled := State();
      var s := 0;
      while s < nextSlotId
        invariant 0 <= s
        invariant Spec.CloseSlots(State(), s) == Spec.CloseSlots(settled, 0)
        decreases nextSlotId - s
      {
        if s in slots {
          EndActive(s, error);
          RetireSlot(s);
        }
        s := s + 1;
      }
    }

    /** The event loop: whatever comes next, its handler keeps the pool on a behavior of the machine. */
    method Handle(e: Spec.Event)
      requires Lawful()
      modifies this
      ensures State() == Spec.Step(old(State()), e) && Lawful() && Spec.Inv(State())
    {
      Spec.StepIsReachable(State(), e);
      Spec.ReachableIsInv(Spec.Step(State(), e));
      match e
      case Extract(signalAborted, env) => var _ := Extract(signalAborted, env);
      case Message(s, id, reply, env) => OnMessage(s, id, reply, env);
      case WorkerError(s) => OnError(s);
      case WorkerExit(s, env) => OnExit(s, env);
      case Abort(j) => OnAbort(j);
      case Timeout(j) => OnTimeout(j);
      case TerminationDone(s, env) => OnTerminated(s, env);
      case Close => Close();
    }
  }
}
