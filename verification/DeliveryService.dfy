/**
 The delivery module in its own form: the attempt map, the in-flight set and the
 `delivered` table, changed by the parts of the drain loop between two awaits.
 */
module DeliveryService {
  import opened Wrappers
  import D = DeliveryProtocol

  class Deliveries {
    var deliveryAttempts: map<int, nat>
    var inflightDeliveries: set<int>
    var delivered: map<int, D.Status>
    /** The suspended calls of `deliverSessionMessages`. */
    var drains: map<nat, D.Drain>
    ghost var starts: multiset<int>
    ghost var successes: multiset<int>
    ghost var failures: multiset<int>

    ghost function State(): D.State
      reads this
    {
      D.State(inflightDeliveries, drains, deliveryAttempts, delivered, starts, successes, failures)
    }

    /** The calls so far were a behavior of the machine. */
    ghost predicate Lawful(owner: D.Owner)
      reads this
    {
      D.Reachable(owner, State())
    }

    constructor ()
      ensures State() == D.Init() && forall owner: D.Owner :: Lawful(owner)
    {
      deliveryAttempts, inflightDeliveries, delivered, drains := map[], {}, map[], map[];
      starts, successes, failures := multiset{}, multiset{}, multiset{};
      new;
      forall owner: D.Owner ensures Lawful(owner) {
        D.InitIsReachable(owner);
      }
    }

    /** The loop up to its next await, or past its last message. */
    method NextMessage(call: nat, session: int, left: seq<int>)
      modifies this
      ensures State() == D.Continue(old(State()), call, session, left)
    {
      if left == [] {
        drains := drains[call := D.Drain(session, None, [])];
        return;
      }
      starts := starts + multiset{left[0]};
      drains := drains[call := D.Drain(session, Some(left[0]), left[1..])];
    }

    method FilterUndelivered(due: seq<int>) returns (undelivered: seq<int>)
      ensures undelivered == D.Undelivered(delivered, due)
    {
      undelivered := [];
      var i := |due|;
      assert due[i..] == [];
      while i > 0
        invariant 0 <= i <= |due|
        invariant undelivered == D.Undelivered(delivered, due[i..])
      {
        i := i - 1;
        assert due[i..][1..] == due[i + 1..] && due[i..][0] == due[i];
        if due[i] !in delivered {
          undelivered := [due[i]] + undelivered;
        }
      }
      assert due[0..] == due;
    }

    /** A poll calls `deliverSessionMessages`; `due` are the rows it reads. */
    method DeliverSessionMessages(call: nat, session: int, due: seq<int>)
      requires call !in drains
      modifies this
      ensures State() == D.Step(old(State()), D.Poll(call, session, due))
    {
      if session in inflightDeliveries { return; }
      inflightDeliveries := inflightDeliveries + {session};
      var undelivered := FilterUndelivered(due);
      NextMessage(call, session, undelivered);
    }

    /** The message has a row from now on; a row that was there before stays as it is, whichever message it is of. */
    method MarkDelivered(id: int)
      modifies this`delivered
      ensures delivered.Keys == old(delivered.Keys) + {id}
      ensures forall row :: row in old(delivered) ==> delivered[row] == old(delivered)[row]
      ensures id !in old(delivered) ==> delivered[id] == D.Delivered
    {
      if id !in delivered {
        delivered := delivered[id := D.Delivered];
      }
    }

    /** The same for a message that is given up: an earlier outcome is not overwritten. */
    method MarkDeliveryFailed(id: int)
      modifies this`delivered
      ensures delivered.Keys == old(delivered.Keys) + {id}
      ensures forall row :: row in old(delivered) ==> delivered[row] == old(delivered)[row]
      ensures id !in old(delivered) ==> delivered[id] == D.Failed
    {
      if id !in delivered {
        delivered := delivered[id := D.Failed];
      }
    }

    /** The awaited delivery returned. */
    method OnReturned(call: nat)
      requires call in drains && drains[call].current.Some?
      modifies this
      ensures State() == D.Step(old(State()), D.Returned(call))
    {
      var drain := drains[call];
      var id := drain.current.value;
      MarkDelivered(id);
      D.OneRowMore(old(delivered), delivered, id, D.Delivered);
      deliveryAttempts := deliveryAttempts - {id};
      successes := successes + multiset{id};
      NextMessage(call, drain.session, drain.rest);
    }

    /** The counter of a message; the third failure is recorded for good. */
    method CountFailure(id: int)
      modifies this
      ensures State() == D.Fail(old(State()), id)
    {
      var attempts := (if id in deliveryAttempts then deliveryAttempts[id] else 0) + 1;
      deliveryAttempts := deliveryAttempts[id := attempts];
      failures := failures + multiset{id};
      if attempts >= D.MaxAttempts {
        MarkDeliveryFailed(id);
        D.OneRowMore(old(delivered), delivered, id, D.Failed);
        deliveryAttempts := deliveryAttempts - {id};
        assert deliveryAttempts == old(deliveryAttempts) - {id};
      }
    }

    /** The awaited delivery threw. */
    method OnThrew(call: nat)
      requires call in drains && drains[call].current.Some?
      modifies this
      ensures State() == D.Step(old(State()), D.Threw(call))
    {
      var drain := drains[call];
      CountFailure(drain.current.value);
      NextMessage(call, drain.session, drain.rest);
    }

    /** The drain is over: the guard is lifted. */
    method OnDrained(call: nat)
      requires call in drains && drains[call].current.None?
      modifies this
      ensures State() == D.Step(old(State()), D.Ended(call))
    {
      inflightDeliveries := inflightDeliveries - {drains[call].session};
      drains := drains - {call};
    }

    /** Whatever comes next, the module stays on a behavior of the machine. */
    method Handle(ghost owner: D.Owner, e: D.Event)
      requires Lawful(owner) && D.Allowed(owner, e)
      modifies this
      ensures State() == D.Step(old(State()), e) && Lawful(owner) && D.Inv(owner, State())
    {
      D.StepIsReachable(owner, State(), e);
      D.ReachableIsInv(owner, D.Step(State(), e));
      match e
      case Poll(call, session, due) => if call !in drains { DeliverSessionMessages(call, session, due); }
      case Returned(call) => if call in drains && drains[call].current.Some? { OnReturned(call); }
      case Threw(call) => if call in drains && drains[call].current.Some? { OnThrew(call); }
      case Ended(call) => if call in drains && drains[call].current.None? { OnDrained(call); }
    }
  }
}
