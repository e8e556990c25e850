/**
 Who gets a permit, who waits and who is rejected for what reason, told in terms of the
 status of the requests. All of it holds in every reachable state.
 */
module PermitOutcomes {
  import opened Wrappers
  import opened FifoQueue
  import opened PermitPool

  predicate SignalFired(p: Permits, r: RequestId) {
    r in p.requests && p.requests[r].signal.Some? && p.requests[r].signal.value in p.aborted
  }

  ghost predicate HasStatus(p: Permits, r: RequestId, status: Status) {
    r in p.requests && p.requests[r].status == status
  }

  /** No request but these changes, and none is forgotten. */
  ghost predicate OnlyThese(p: Permits, q: Permits, these: set<RequestId>) {
    forall r :: r in p.requests && r !in these ==> r in q.requests && q.requests[r] == p.requests[r]
  }

  // ---------------------------------------------------------------------------
  // Asking for a permit
  // ---------------------------------------------------------------------------

  /**
   A request whose signal has fired is rejected for that. Any other is granted at once if
   and only if a permit is free, rejected as full if and only if no permit is free and the
   queue is full, and waits behind all others otherwise.
   */
  lemma {:induction false} AcquireOutcome(p: Permits, signal: Option<SignalId>)
    requires Reachable(p)
    ensures var q, r := Step(p, Acquire(signal)), p.next;
      var fired := signal.Some? && signal.value in p.aborted;
      && r !in p.requests && r in q.requests && q.requests[r].signal == signal && OnlyThese(p, q, {})
      && (fired ==> HasStatus(q, r, Rejected(SignalAborted)) && q.queue == p.queue && q.active == p.active)
      && (!fired ==>
            && (HasStatus(q, r, Granted) <==> p.active < p.limit)
            && (HasStatus(q, r, Rejected(QueueFull)) <==> p.active == p.limit && |p.queue| == p.maxQueue)
            && (HasStatus(q, r, Waiting) <==> p.active == p.limit && |p.queue| < p.maxQueue)
            && q.active == p.active + (if HasStatus(q, r, Granted) then 1 else 0)
            && q.queue == p.queue + (if HasStatus(q, r, Waiting) then [r] else []))
  {
    ReachableIsInv(p);
    NextIsNew(p);
  }

  // ---------------------------------------------------------------------------
  // Giving it back
  // ---------------------------------------------------------------------------

  /**
   The first `m` waiters are passed over because their signal has fired, the next one has
   a permit now, and those after it wait on.
   */
  ghost predicate Served(p: Permits, q: Permits, m: nat) {
    && m <= |p.queue| && q.requests.Keys == p.requests.Keys
    && (forall i :: 0 <= i < m ==> SignalFired(p, p.queue[i]) && HasStatus(q, p.queue[i], Rejected(SignalAborted)))
    && (m < |p.queue| ==>
          && !SignalFired(p, p.queue[m]) && HasStatus(q, p.queue[m], Granted)
          && q.queue == p.queue[m + 1..] && q.active == p.active + 1)
    && (m == |p.queue| ==> q.queue == [] && q.active == p.active)
    && (forall r :: r in p.requests && r !in p.queue[..if m < |p.queue| then m + 1 else m] ==> q.requests[r] == p.requests[r])
  }

  lemma {:induction false} PassOver(p: Permits)
    requires Sound(p) && p.queue != [] && SignalFired(p, p.queue[0])
    ensures var q := DispatchOnce(p); var h := p.queue[0];
      && HasStatus(q, h, Rejected(SignalAborted)) && q.active == p.active && q.aborted == p.aborted && q.limit == p.limit
      && q.requests.Keys == p.requests.Keys && (forall r :: r in p.requests && r != h ==> q.requests[r] == p.requests[r])
  {
  }

  lemma {:induction false} GrantFirst(p: Permits)
    requires Sound(p) && p.queue != [] && !SignalFired(p, p.queue[0]) && p.active + 1 == p.limit
    ensures Served(p, Dispatch(p), 0)
  {
    assert p.queue[0] in p.queue;
  }

  lemma {:induction false} ServedAfterOne(p: Permits, q: Permits, r: Permits, m: nat)
    requires p.queue != [] && SignalFired(p, p.queue[0]) && q.queue == p.queue[1..] && p.queue[0] !in q.queue
    requires HasStatus(q, p.queue[0], Rejected(SignalAborted)) && q.active == p.active && q.aborted == p.aborted
    requires q.requests.Keys == p.requests.Keys
    requires forall t :: t in p.requests && t != p.queue[0] ==> q.requests[t] == p.requests[t]
    requires Served(q, r, m)
    ensures Served(p, r, m + 1)
  {
    forall i | 0 <= i < m + 1
      ensures SignalFired(p, p.queue[i]) && HasStatus(r, p.queue[i], Rejected(SignalAborted))
    {
      if i > 0 {
        assert q.queue[i - 1] == p.queue[i] && p.queue[i] in q.queue;
      }
    }
    if m + 1 < |p.queue| {
      assert q.queue[m] == p.queue[m + 1] && p.queue[m + 1] in q.queue;
    }
    var n := if m + 1 < |p.queue| then m + 2 else m + 1;
    assert p.queue[..n] == [p.queue[0]] + q.queue[..n - 1];
  }

  lemma {:induction false} DispatchServes(p: Permits) returns (m: nat)
    requires Sound(p) && (p.queue != [] ==> p.active + 1 == p.limit)
    ensures Served(p, Dispatch(p), m)
    decreases |p.queue|
  {
    if p.queue == [] {
      m := 0;
    } else if !SignalFired(p, p.queue[0]) {
      GrantFirst(p);
      m := 0;
    } else {
      var q := DispatchOnce(p);
      assert p.queue[0] in p.queue;
      PassOver(p);
      DispatchOnceKeepsSound(p);
      HeadIsGone(p);
      m := DispatchServes(q);
      ServedAfterOne(p, q, Dispatch(q), m);
      m := m + 1;
    }
  }

  lemma {:induction false} HeadIsGone(p: Permits)
    requires Sound(p) && p.queue != []
    ensures p.queue[0] !in p.queue[1..]
  {
    OrderedPop(p.grants, p.queue, p.next);
  }

  /**
   The holder of a permit that calls its release function has given it back. The first
   waiter whose signal has not fired holds it from then on, those before it are rejected
   for their signal, and those after it wait on. A second call does nothing.
   */
  lemma {:induction false} ReleaseOutcome(p: Permits, r: RequestId) returns (m: nat)
    requires Reachable(p) && HasStatus(p, r, Granted)
    ensures var q := Step(p, Release(r));
      && HasStatus(q, r, Released) && r !in p.queue && q.requests.Keys == p.requests.Keys && m <= |p.queue|
      && (forall i :: 0 <= i < m ==> SignalFired(p, p.queue[i]) && HasStatus(q, p.queue[i], Rejected(SignalAborted)))
      && (m < |p.queue| ==>
            && !SignalFired(p, p.queue[m]) && HasStatus(q, p.queue[m], Granted)
            && q.queue == p.queue[m + 1..] && q.active == p.active)
      && (m == |p.queue| ==> q.queue == [] && q.active == p.active - 1)
      && (forall t :: t in p.requests && t != r && t !in p.queue[..if m < |p.queue| then m + 1 else m] ==>
            q.requests[t] == p.requests[t])
  {
    ReachableIsInv(p);
    assert RequestOk(p, r);
    var given := GiveBack(p, r);
    GiveBackKeepsSound(p, r);
    m := DispatchServes(given);
    forall i | 0 <= i < |p.queue| ensures p.queue[i] != r && (SignalFired(given, p.queue[i]) <==> SignalFired(p, p.queue[i])) {
      assert p.queue[i] in p.queue;
    }
  }

  lemma {:induction false} SecondReleaseOutcome(p: Permits, r: RequestId)
    requires !HasStatus(p, r, Granted)
    ensures Step(p, Release(r)) == p
  {
  }

  // ---------------------------------------------------------------------------
  // Being rejected
  // ---------------------------------------------------------------------------

  lemma {:induction false} AbortedWaiter(p: Permits, r: RequestId) returns (k: nat)
    requires Sound(p) && HasStatus(p, r, Waiting) && SignalFired(p, r)
    ensures k < |p.queue| && p.queue[k] == r
    ensures var q := Step(p, AbortListener(r));
      && HasStatus(q, r, Rejected(SignalAborted)) && OnlyThese(p, q, {r})
      && q.queue == p.queue[..k] + p.queue[k + 1..] && q.active == p.active
  {
    assert RequestOk(p, r);
    k := IndexOf(p.queue, r).value;
  }

  /** A waiter whose signal has fired is rejected for it and leaves the queue. */
  lemma {:induction false} AbortOutcome(p: Permits, r: RequestId) returns (k: nat)
    requires Reachable(p) && HasStatus(p, r, Waiting) && SignalFired(p, r)
    ensures k < |p.queue| && p.queue[k] == r
    ensures var q := Step(p, AbortListener(r));
      && HasStatus(q, r, Rejected(SignalAborted)) && OnlyThese(p, q, {r})
      && q.queue == p.queue[..k] + p.queue[k + 1..] && q.active == p.active
  {
    ReachableIsInv(p);
    k := AbortedWaiter(p, r);
  }

  lemma {:induction false} RejectEachOutcome(p: Permits, rs: seq<RequestId>)
    requires (forall i :: 0 <= i < |rs| ==> rs[i] in p.requests) && forall i, k :: 0 <= i < k < |rs| ==> rs[i] != rs[k]
    ensures var q := RejectEach(p, rs);
      && (forall i :: 0 <= i < |rs| ==> HasStatus(q, rs[i], Rejected(PoolClosed)))
      && (forall r :: r in p.requests && r !in rs ==> q.requests[r] == p.requests[r])
      && q.queue == p.queue && q.active == p.active
    decreases |rs|
  {
    if rs != [] {
      var q := SettleRequest(p, rs[0], Rejected(PoolClosed));
      RejectEachOutcome(q, rs[1..]);
      forall i | 0 <= i < |rs| ensures HasStatus(RejectEach(p, rs), rs[i], Rejected(PoolClosed)) {
        if i > 0 { assert rs[1..][i - 1] == rs[i]; }
      }
    }
  }

  lemma {:induction false} RejectingTheQueue(p: Permits)
    requires Sound(p)
    ensures var q := Step(p, RejectQueued);
      && (forall r :: HasStatus(p, r, Waiting) ==> HasStatus(q, r, Rejected(PoolClosed)))
      && (forall r :: r in p.requests && !HasStatus(p, r, Waiting) ==> r in q.requests && q.requests[r] == p.requests[r])
      && q.queue == [] && q.active == p.active
  {
    OrderedParts(p.grants, p.queue, p.next);
    forall i | 0 <= i < |p.queue| ensures p.queue[i] in p.requests { assert p.queue[i] in p.queue; }
    RejectEachOutcome(p.(queue := []), p.queue);
    forall r | r in p.requests ensures r in p.queue <==> HasStatus(p, r, Waiting) { assert RequestOk(p, r); }
  }

  /** Rejecting the queue rejects exactly the waiters, because the pool closes, and leaves the permits that are out. */
  lemma {:induction false} RejectQueuedOutcome(p: Permits)
    requires Reachable(p)
    ensures var q := Step(p, RejectQueued);
      && (forall r :: HasStatus(p, r, Waiting) ==> HasStatus(q, r, Rejected(PoolClosed)))
      && (forall r :: r in p.requests && !HasStatus(p, r, Waiting) ==> r in q.requests && q.requests[r] == p.requests[r])
      && q.queue == [] && q.active == p.active
  {
    ReachableIsInv(p);
    RejectingTheQueue(p);
  }
}
