/**
 `ContextPermitPool`: a counting semaphore with a bounded queue whose waiters can be
 aborted. The requests are numbered in the order in which `acquire` is called.

 An abort signal first becomes aborted and then calls its listeners one by one, so a
 waiter of an aborted signal can still be in the queue when a permit is released.
 */
module PermitPool {
  import opened Wrappers
  import opened FifoQueue

  type RequestId = nat
  type SignalId = nat

  datatype Reason = SignalAborted | QueueFull | PoolClosed

  datatype Status = Waiting | Granted | Released | Rejected(reason: Reason)

  /** `settlements` counts the calls of the promise's resolve and reject functions. */
  datatype Request = Request(signal: Option<SignalId>, status: Status, listening: bool, settlements: nat)

  /** `grants` is a history variable: the requests that got a permit, oldest first. */
  datatype Permits = Permits(
    limit: nat,
    maxQueue: nat,
    active: int,
    queue: seq<RequestId>,
    requests: map<RequestId, Request>,
    next: RequestId,
    aborted: set<SignalId>,
    grants: seq<RequestId>)

  datatype Event =
    | Acquire(signal: Option<SignalId>)
    | SignalAborts(fired: SignalId)
    | AbortListener(request: RequestId)
    | Release(request: RequestId)
    | RejectQueued

  function Init(limit: nat, maxQueue: nat): Permits {
    Permits(limit, maxQueue, 0, [], map[], 1, {}, [])
  }

  predicate IsAborted(p: Permits, signal: Option<SignalId>) {
    signal.Some? && signal.value in p.aborted
  }

  /** Settle the promise of request `r` for good. */
  function SettleRequest(p: Permits, r: RequestId, status: Status): (q: Permits)
    ensures q.requests.Keys == p.requests.Keys && q.next == p.next
  {
    if r !in p.requests then p
    else
      var request := p.requests[r];
      p.(requests := p.requests[r := Request(request.signal, status, false, request.settlements + 1)])
  }

  function Grant(p: Permits, r: RequestId): Permits {
    SettleRequest(p.(active := p.active + 1, grants := p.grants + [r]), r, Granted)
  }

  function AddRequest(p: Permits, request: Request): Permits {
    p.(requests := p.requests[p.next := request], next := p.next + 1)
  }

  function DoAcquire(p: Permits, signal: Option<SignalId>): Permits {
    var unsettled := Request(signal, Waiting, false, 0);
    if IsAborted(p, signal) then
      SettleRequest(AddRequest(p, unsettled), p.next, Rejected(SignalAborted))
    else if p.active < p.limit then
      Grant(AddRequest(p, unsettled), p.next)
    else if |p.queue| >= p.maxQueue then
      SettleRequest(AddRequest(p, unsettled), p.next, Rejected(QueueFull))
    else
      AddRequest(p, unsettled.(listening := signal.Some?)).(queue := p.queue + [p.next])
  }

  /** One iteration of the dispatch loop. */
  function DispatchOnce(p: Permits): (q: Permits)
    requires p.queue != []
    ensures q.queue == p.queue[1..]
    ensures q.requests.Keys == p.requests.Keys && q.next == p.next
  {
    var r := p.queue[0];
    var p1 := p.(queue := p.queue[1..]);
    if r in p.requests && IsAborted(p, p.requests[r].signal) then SettleRequest(p1, r, Rejected(SignalAborted))
    else Grant(p1, r)
  }

  function Dispatch(p: Permits): (q: Permits)
    ensures q.requests.Keys == p.requests.Keys && q.next == p.next
    decreases |p.queue|
  {
    if p.active < p.limit && p.queue != [] then Dispatch(DispatchOnce(p)) else p
  }

  function GiveBack(p: Permits, r: RequestId): Permits
    requires r in p.requests
  {
    p.(active := p.active - 1, requests := p.requests[r := p.requests[r].(status := Released)])
  }

  /** The closure handed out with a permit; it acts the first time it is called. */
  function DoRelease(p: Permits, r: RequestId): (q: Permits)
    ensures q.requests.Keys == p.requests.Keys && q.next == p.next
  {
    if r !in p.requests || p.requests[r].status != Granted then p else Dispatch(GiveBack(p, r))
  }

  function DoAbort(p: Permits, r: RequestId): (q: Permits)
    ensures q.requests.Keys == p.requests.Keys && q.next == p.next
  {
    if r !in p.requests || !p.requests[r].listening || !IsAborted(p, p.requests[r].signal) then p
    else SettleRequest(p.(queue := Without(p.queue, r)), r, Rejected(SignalAborted))
  }

  /** The requests `rs` are rejected, in this order. */
  function RejectEach(p: Permits, rs: seq<RequestId>): (q: Permits)
    ensures q.requests.Keys == p.requests.Keys && q.next == p.next
    decreases |rs|
  {
    if rs == [] then p else RejectEach(SettleRequest(p, rs[0], Rejected(PoolClosed)), rs[1..])
  }

  function Step(p: Permits, e: Event): Permits {
    match e
    case Acquire(signal) => DoAcquire(p, signal)
    case SignalAborts(fired) => p.(aborted := p.aborted + {fired})
    case AbortListener(r) => DoAbort(p, r)
    case Release(r) => DoRelease(p, r)
    case RejectQueued => RejectEach(p.(queue := []), p.queue)
  }

  // ---------------------------------------------------------------------------
  // The invariant
  // ---------------------------------------------------------------------------

  /** The permits that are out: granted and not yet given back. */
  function Out(p: Permits): set<RequestId> {
    set r | r in p.requests && p.requests[r].status == Granted
  }

  predicate HadPermit(status: Status) {
    status == Granted || status == Released
  }

  ghost predicate RequestOk(p: Permits, r: RequestId)
    requires r in p.requests
  {
    var request := p.requests[r];
    && 1 <= r < p.next
    && (r in p.queue <==> request.status == Waiting)
    && (r in p.grants <==> HadPermit(request.status))
    && request.settlements == (if request.status == Waiting then 0 else 1)
    && (request.listening <==> request.status == Waiting && request.signal.Some?)
  }

  /** What holds between the iterations of a dispatch loop as well. */
  ghost predicate Sound(p: Permits) {
    && p.next >= 1
    && p.active == |Out(p)|
    && p.active <= p.limit
    && (forall r :: r in p.requests ==> RequestOk(p, r))
    && (forall r :: 1 <= r < p.next ==> r in p.requests)
    && (forall r :: r in p.queue ==> r in p.requests)
    && Ordered(p.grants, p.queue, p.next)
  }

  ghost predicate Inv(p: Permits) {
    && Sound(p)
    && (p.queue != [] ==> p.active == p.limit)
    && |p.queue| <= p.maxQueue
  }

  /** Everything but pending requests is left alone. */
  ghost predicate Frozen(p: Permits, q: Permits) {
    && q.limit == p.limit && q.maxQueue == p.maxQueue && p.grants <= q.grants && p.next <= q.next
    && (forall r :: r in p.requests ==>
          && r in q.requests
          && (p.requests[r].status != Waiting ==> q.requests[r] == p.requests[r])
          && (p.requests[r].status == Waiting ==> q.requests[r].status != Released))
  }

  /** As `Frozen`, but permits may have come back. */
  ghost predicate Extends(p: Permits, q: Permits) {
    && q.limit == p.limit && q.maxQueue == p.maxQueue && p.grants <= q.grants && p.next <= q.next
    && (forall r :: r in p.requests ==>
          && r in q.requests
          && (p.requests[r].status.Rejected? || p.requests[r].status == Released ==> q.requests[r] == p.requests[r])
          && (p.requests[r].status == Granted ==> HadPermit(q.requests[r].status)))
  }

  lemma {:induction false} FrozenTransitive(p: Permits, q: Permits, r: Permits)
    requires Frozen(p, q) && Frozen(q, r)
    ensures Frozen(p, r)
  {
  }

  lemma {:induction false} ExtendsTransitive(p: Permits, q: Permits, r: Permits)
    requires Extends(p, q) && Extends(q, r)
    ensures Extends(p, r)
  {
  }

  lemma {:induction false} OneMoreOut(p: Permits, q: Permits, r: RequestId)
    requires Out(q) == Out(p) + {r} && r !in Out(p)
    ensures |Out(q)| == |Out(p)| + 1
  {
  }

  lemma {:induction false} OneLessOut(p: Permits, q: Permits, r: RequestId)
    requires Out(q) == Out(p) - {r} && r in Out(p)
    ensures |Out(q)| == |Out(p)| - 1
  {
  }

  lemma {:induction false} InitIsInv(limit: nat, maxQueue: nat)
    ensures Inv(Init(limit, maxQueue))
  {
    assert Out(Init(limit, maxQueue)) == {};
  }

  lemma {:induction false} SettleWaiting(p: Permits, r: RequestId, rest: seq<RequestId>, reason: Reason)
    requires Sound(p) && r in p.queue
    requires Ordered(p.grants, rest, p.next) && forall i :: i in rest <==> i in p.queue && i != r
    ensures var q := SettleRequest(p.(queue := rest), r, Rejected(reason));
      Sound(q) && Frozen(p, q) && q.active == p.active
  {
    assert RequestOk(p, r);
    var q := SettleRequest(p.(queue := rest), r, Rejected(reason));
    assert Out(q) == Out(p);
    forall t | t in q.requests ensures RequestOk(q, t) { assert RequestOk(p, t); }
  }

  lemma {:induction false} SettleHead(p: Permits, reason: Reason)
    requires Sound(p) && p.queue != []
    ensures var q := SettleRequest(p.(queue := p.queue[1..]), p.queue[0], Rejected(reason));
      Sound(q) && Frozen(p, q) && q.active == p.active
  {
    OrderedPop(p.grants, p.queue, p.next);
    SettleWaiting(p, p.queue[0], p.queue[1..], reason);
  }

  /** A grant to a waiting request gives out one permit more. */
  lemma {:induction false} GrantGivesOne(p: Permits, r: RequestId, q: Permits)
    requires r in p.requests && p.requests[r].status == Waiting && q.requests.Keys == p.requests.Keys
    requires q.requests[r].status == Granted
    requires forall t :: t in p.requests && t != r ==> q.requests[t] == p.requests[t]
    ensures |Out(q)| == |Out(p)| + 1
  {
    assert Out(q) == Out(p) + {r};
    OneMoreOut(p, q, r);
  }

  lemma {:induction false} GrantHead(p: Permits)
    requires Sound(p) && p.queue != [] && p.active < p.limit
    ensures var q := Grant(p.(queue := p.queue[1..]), p.queue[0]); Sound(q) && Frozen(p, q)
  {
    var r := p.queue[0];
    var q := Grant(p.(queue := p.queue[1..]), r);
    assert r in p.queue && RequestOk(p, r);
    GrantGivesOne(p, r, q);
    assert Ordered(q.grants, q.queue, q.next) && forall t :: t in q.queue <==> t in p.queue && t != r by {
      OrderedPop(p.grants, p.queue, p.next);
    }
    forall t | t in q.requests ensures RequestOk(q, t) {
      assert RequestOk(p, t);
      assert t in q.grants <==> t in p.grants || t == r by { assert q.grants == p.grants + [r]; }
    }
  }

  lemma {:induction false} DispatchOnceKeepsSound(p: Permits)
    requires Sound(p) && p.queue != [] && p.active < p.limit
    ensures Sound(DispatchOnce(p)) && Frozen(p, DispatchOnce(p))
  {
    if IsAborted(p, p.requests[p.queue[0]].signal) {
      SettleHead(p, SignalAborted);
    } else {
      GrantHead(p);
    }
  }

  lemma {:induction false} DispatchKeepsSound(p: Permits)
    requires Sound(p)
    ensures var q := Dispatch(p);
      && Sound(q) && Frozen(p, q) && |q.queue| <= |p.queue|
      && (q.queue != [] ==> q.active == q.limit)
    decreases |p.queue|
  {
    if p.active < p.limit && p.queue != [] {
      var q := DispatchOnce(p);
      DispatchOnceKeepsSound(p);
      DispatchKeepsSound(q);
      FrozenTransitive(p, q, Dispatch(q));
    }
  }

  lemma {:induction false} GiveBackKeepsSound(p: Permits, r: RequestId)
    requires Sound(p) && r in p.requests && p.requests[r].status == Granted
    ensures Sound(GiveBack(p, r)) && Extends(p, GiveBack(p, r))
  {
    var q := GiveBack(p, r);
    assert RequestOk(p, r);
    assert |Out(q)| == |Out(p)| - 1 by {
      assert Out(q) == Out(p) - {r};
      OneLessOut(p, q, r);
    }
    forall t | t in q.requests ensures RequestOk(q, t) { assert RequestOk(p, t); }
  }

  /** Releasing request `r` ends its permit and touches no other that is settled. */
  ghost predicate Frees(p: Permits, q: Permits, r: RequestId) {
    forall t :: t in p.requests ==>
      && t in q.requests
      && (t != r && p.requests[t].status != Waiting ==> q.requests[t] == p.requests[t])
      && (t != r && p.requests[t].status == Waiting ==> q.requests[t].status != Released)
      && (t == r && p.requests[t].status == Granted ==> q.requests[t].status == Released)
  }

  lemma {:induction false} FreesThenFrozen(p: Permits, r: RequestId, q: Permits)
    requires r in p.requests && p.requests[r].status == Granted && Frozen(GiveBack(p, r), q)
    ensures Frees(p, q, r) && Extends(p, q)
  {
    var g := GiveBack(p, r);
    forall t | t in p.requests
      ensures t in q.requests
      ensures p.requests[t].status != Waiting && t != r ==> q.requests[t] == p.requests[t]
    {
      assert t in g.requests;
    }
  }

  lemma {:induction false} ReleaseKeepsInv(p: Permits, r: RequestId)
    requires Inv(p)
    ensures Inv(DoRelease(p, r)) && Extends(p, DoRelease(p, r)) && Frees(p, DoRelease(p, r), r)
  {
    if r in p.requests && p.requests[r].status == Granted {
      assert Sound(GiveBack(p, r)) by { GiveBackKeepsSound(p, r); }
      DispatchKeepsSound(GiveBack(p, r));
      FreesThenFrozen(p, r, DoRelease(p, r));
    } else {
      forall t | t in p.requests && p.requests[t].status == Waiting ensures p.requests[t].status != Released {}
    }
  }

  lemma {:induction false} AbortKeepsInv(p: Permits, r: RequestId)
    requires Inv(p)
    ensures Inv(DoAbort(p, r)) && Frozen(p, DoAbort(p, r))
  {
    if r in p.requests && p.requests[r].listening && IsAborted(p, p.requests[r].signal) {
      assert RequestOk(p, r);
      OrderedWithout(p.grants, p.queue, p.next, r);
      SettleWaiting(p, r, Without(p.queue, r), SignalAborted);
    }
  }

  lemma {:induction false} RejectAllKeepsSound(p: Permits)
    requires Sound(p)
    ensures var q := RejectEach(p.(queue := []), p.queue);
      Sound(q) && Frozen(p, q) && q.queue == [] && q.active == p.active
    decreases |p.queue|
  {
    if p.queue != [] {
      var q := SettleRequest(p.(queue := p.queue[1..]), p.queue[0], Rejected(PoolClosed));
      assert q.(queue := []) == SettleRequest(p.(queue := []), p.queue[0], Rejected(PoolClosed));
      SettleHead(p, PoolClosed);
      RejectAllKeepsSound(q);
      FrozenTransitive(p, q, RejectEach(q.(queue := []), q.queue));
    }
  }

  /** The new number has not been used anywhere. */
  lemma {:induction false} NextIsNew(p: Permits)
    requires Sound(p)
    ensures p.next !in p.requests && p.next !in p.queue && p.next !in p.grants
  {
    forall r | r in p.requests ensures r != p.next { assert RequestOk(p, r); }
  }

  lemma {:induction false} AcquireRejected(p: Permits, signal: Option<SignalId>, reason: Reason)
    requires Sound(p)
    ensures var q := SettleRequest(AddRequest(p, Request(signal, Waiting, false, 0)), p.next, Rejected(reason));
      Sound(q) && Frozen(p, q)
  {
    var q := SettleRequest(AddRequest(p, Request(signal, Waiting, false, 0)), p.next, Rejected(reason));
    NextIsNew(p);
    assert Out(q) == Out(p);
    forall t | t in q.requests ensures RequestOk(q, t) {
      if t != p.next { assert RequestOk(p, t); }
    }
  }

  lemma {:induction false} GrantNextOrdered(p: Permits)
    requires Ordered(p.grants, p.queue, p.next) && p.queue == [] && p.next >= 1
    ensures Ordered(p.grants + [p.next], [], p.next + 1)
  {
    OrderedPush(p.grants, [], p.next);
    OrderedPop(p.grants, [] + [p.next], p.next + 1);
    assert ([] + [p.next])[1..] == [];
  }

  lemma {:induction false} AcquireGranted(p: Permits, signal: Option<SignalId>)
    requires Sound(p) && p.queue == [] && p.active < p.limit
    ensures var q := Grant(AddRequest(p, Request(signal, Waiting, false, 0)), p.next);
      Sound(q) && Frozen(p, q)
  {
    var added := AddRequest(p, Request(signal, Waiting, false, 0));
    var q := Grant(added, p.next);
    NextIsNew(p);
    assert Out(added) == Out(p);
    GrantGivesOne(added, p.next, q);
    GrantNextOrdered(p);
    forall t | t in q.requests ensures RequestOk(q, t) {
      if t != p.next { assert RequestOk(p, t); }
      assert t in q.grants <==> t in p.grants || t == p.next by { assert q.grants == p.grants + [p.next]; }
    }
  }

  lemma {:induction false} AcquireWaits(p: Permits, signal: Option<SignalId>)
    requires Sound(p)
    ensures var q := AddRequest(p, Request(signal, Waiting, signal.Some?, 0)).(queue := p.queue + [p.next]);
      Sound(q) && Frozen(p, q)
  {
    var q := AddRequest(p, Request(signal, Waiting, signal.Some?, 0)).(queue := p.queue + [p.next]);
    NextIsNew(p);
    assert Out(q) == Out(p);
    OrderedPush(p.grants, p.queue, p.next);
    assert q.queue[|p.queue|] == p.next;
    forall t | t in q.requests ensures RequestOk(q, t) {
      if t != p.next { assert RequestOk(p, t); }
    }
  }

  lemma {:induction false} AcquireKeepsInv(p: Permits, signal: Option<SignalId>)
    requires Inv(p)
    ensures Inv(DoAcquire(p, signal)) && Frozen(p, DoAcquire(p, signal))
    ensures p.next !in p.requests && DoAcquire(p, signal).requests.Keys == p.requests.Keys + {p.next}
    ensures DoAcquire(p, signal).requests[p.next].status != Released
  {
    NextIsNew(p);
    if IsAborted(p, signal) {
      AcquireRejected(p, signal, SignalAborted);
    } else if p.active < p.limit {
      AcquireGranted(p, signal);
    } else if |p.queue| >= p.maxQueue {
      AcquireRejected(p, signal, QueueFull);
    } else {
      AcquireWaits(p, signal);
    }
  }

  lemma {:induction false} StepKeepsInv(p: Permits, e: Event)
    requires Inv(p)
    ensures Inv(Step(p, e)) && Extends(p, Step(p, e))
    ensures !e.Release? ==> Frozen(p, Step(p, e))
  {
    match e
    case Acquire(signal) => AcquireKeepsInv(p, signal);
    case SignalAborts(_) =>
      var q := Step(p, e);
      assert Out(q) == Out(p);
      forall t | t in q.requests ensures RequestOk(q, t) { assert RequestOk(p, t); }
    case AbortListener(r) => AbortKeepsInv(p, r);
    case Release(r) => ReleaseKeepsInv(p, r);
    case RejectQueued => RejectAllKeepsSound(p);
  }

  // ---------------------------------------------------------------------------
  // Every interleaving
  // ---------------------------------------------------------------------------

  ghost predicate StepAt(b: seq<Permits>, es: seq<Event>, i: nat)
    requires 0 < i < |b| == |es| + 1
  {
    b[i] == Step(b[i - 1], es[i - 1])
  }

  ghost predicate Behavior(b: seq<Permits>, es: seq<Event>) {
    && |b| == |es| + 1
    && (exists limit: nat, maxQueue: nat :: b[0] == Init(limit, maxQueue))
    && (forall i :: 0 < i < |b| ==> StepAt(b, es, i))
  }

  lemma {:induction false} BehaviorKeepsInv(b: seq<Permits>, es: seq<Event>, i: nat)
    requires Behavior(b, es) && i < |b|
    ensures Inv(b[i])
  {
    if i == 0 {
      InitIsInv(b[0].limit, b[0].maxQueue);
    } else {
      BehaviorKeepsInv(b, es, i - 1);
      assert StepAt(b, es, i);
      StepKeepsInv(b[i - 1], es[i - 1]);
    }
  }

  /** A state that some behavior ends in. */
  ghost predicate Reachable(p: Permits) {
    exists b, es :: Behavior(b, es) && b[|es|] == p
  }

  lemma {:induction false} InitIsReachable(limit: nat, maxQueue: nat)
    ensures Reachable(Init(limit, maxQueue))
  {
    var b, es: seq<Event> := [Init(limit, maxQueue)], [];
    assert Behavior(b, es);
    assert b[|es|] == Init(limit, maxQueue);
  }

  lemma {:induction false} LongerBehavior(b: seq<Permits>, es: seq<Event>, e: Event)
    requires Behavior(b, es)
    ensures Behavior(b + [Step(b[|es|], e)], es + [e])
  {
    var longer, more := b + [Step(b[|es|], e)], es + [e];
    forall i | 0 < i < |longer| ensures StepAt(longer, more, i) {
      if i < |b| { assert StepAt(b, es, i); }
    }
  }

  lemma {:induction false} StepIsReachable(p: Permits, e: Event)
    requires Reachable(p)
    ensures Reachable(Step(p, e))
  {
    var b, es :| Behavior(b, es) && b[|es|] == p;
    var longer, more := b + [Step(p, e)], es + [e];
    LongerBehavior(b, es, e);
    assert longer[|more|] == Step(p, e);
  }

  lemma {:induction false} ReachableIsInv(p: Permits)
    requires Reachable(p)
    ensures Inv(p)
  {
    var b, es :| Behavior(b, es) && b[|es|] == p;
    BehaviorKeepsInv(b, es, |es|);
  }

  lemma {:induction false} BehaviorStepExtends(b: seq<Permits>, es: seq<Event>, k: nat)
    requires Behavior(b, es) && 0 < k < |b|
    ensures Extends(b[k - 1], b[k])
  {
    BehaviorKeepsInv(b, es, k - 1);
    assert StepAt(b, es, k);
    StepKeepsInv(b[k - 1], es[k - 1]);
  }

  lemma {:induction false} BehaviorExtends(b: seq<Permits>, es: seq<Event>, i: nat, k: nat)
    requires Behavior(b, es) && i <= k < |b|
    ensures Extends(b[i], b[k])
  {
    if i < k {
      BehaviorExtends(b, es, i, k - 1);
      BehaviorStepExtends(b, es, k);
      ExtendsTransitive(b[i], b[k - 1], b[k]);
    }
  }

  /**
   `active` is the number of permits that are out and never exceeds the limit; somebody
   waits only while all permits are out, and at most `maxQueue` wait.
   */
  lemma {:induction false} PermitsAreBounded(b: seq<Permits>, es: seq<Event>, i: nat)
    requires Behavior(b, es) && i < |b|
    ensures b[i].active == |Out(b[i])| && 0 <= b[i].active <= b[0].limit
    ensures b[i].queue != [] ==> b[i].active == b[0].limit
    ensures |b[i].queue| <= b[0].maxQueue
  {
    BehaviorKeepsInv(b, es, i);
    BehaviorExtends(b, es, 0, i);
  }

  /** Permits go out in the order in which they were asked for, each request at most once. */
  lemma {:induction false} GrantsAreFifo(b: seq<Permits>, es: seq<Event>, i: nat, k: nat)
    requires Behavior(b, es) && i <= k < |b|
    ensures b[i].grants <= b[k].grants && Increasing(b[k].grants)
    ensures forall g, w :: g in b[k].grants && w in b[k].queue ==> g < w
  {
    BehaviorExtends(b, es, i, k);
    BehaviorKeepsInv(b, es, k);
    OrderedParts(b[k].grants, b[k].queue, b[k].next);
  }

  /**
   Each request is in the queue exactly as long as its promise is pending, is settled
   once, and got a permit exactly when it is listed in the grants.
   */
  lemma {:induction false} RequestsSettleOnce(b: seq<Permits>, es: seq<Event>, i: nat, r: RequestId)
    requires Behavior(b, es) && i < |b| && 1 <= r < b[i].next
    ensures r in b[i].requests
    ensures var request := b[i].requests[r];
      && (r in b[i].queue <==> request.settlements == 0)
      && request.settlements <= 1
      && (r in b[i].grants <==> HadPermit(request.status))
      && (request.listening ==> r in b[i].queue)
  {
    BehaviorKeepsInv(b, es, i);
    assert RequestOk(b[i], r);
  }

  /** A rejected request and a returned permit stay what they are. */
  lemma {:induction false} SettledIsFinal(b: seq<Permits>, es: seq<Event>, i: nat, k: nat, r: RequestId)
    requires Behavior(b, es) && i <= k < |b| && r in b[i].requests
    ensures r in b[k].requests
    ensures b[i].requests[r].status.Rejected? || b[i].requests[r].status == Released ==>
      b[k].requests[r] == b[i].requests[r]
    ensures b[i].requests[r].status == Granted ==> HadPermit(b[k].requests[r].status)
  {
    BehaviorExtends(b, es, i, k);
  }
}
