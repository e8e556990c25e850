/**
 What a poll starts, what becomes of each attempt and what a drain has done when it ends,
 told from the due messages, the table of outcomes and the attempts made.
 */
module DeliveryOutcomes {
  import opened Wrappers
  import opened DeliveryProtocol

  // ---------------------------------------------------------------------------
  // What is due
  // ---------------------------------------------------------------------------

  predicate Increasing(at: seq<nat>) {
    forall i, k :: 0 <= i < k < |at| ==> at[i] < at[k]
  }

  /** `left` are the due messages without a row, in their order, at the positions `at`. */
  predicate AreLeft(table: map<int, Status>, due: seq<int>, left: seq<int>, at: seq<nat>) {
    && |at| == |left| && Increasing(at)
    && (forall n :: 0 <= n < |at| ==> IsAt(table, due, left[n], at[n]))
    && (forall i :: 0 <= i < |due| ==> HasRowOrIsListed(table, due, at, i))
  }

  /** The message stands at position `i` and has no row. */
  predicate IsAt(table: map<int, Status>, due: seq<int>, id: int, i: nat) {
    i < |due| && due[i] == id && id !in table
  }

  predicate HasRowOrIsListed(table: map<int, Status>, due: seq<int>, at: seq<nat>, i: nat)
    requires i < |due|
  {
    due[i] in table || i in at
  }

  function Later(at: seq<nat>): (r: seq<nat>)
    ensures |r| == |at| && forall n :: 0 <= n < |r| ==> r[n] == at[n] + 1
  {
    seq(|at|, n requires 0 <= n < |at| => at[n] + 1)
  }

  lemma {:induction false} LaterIncreases(at: seq<nat>)
    requires Increasing(at)
    ensures Increasing(Later(at)) && Increasing([0] + Later(at))
  {
  }

  lemma {:induction false} LaterIsAt(table: map<int, Status>, due: seq<int>, id: int, i: nat)
    requires due != [] && IsAt(table, due[1..], id, i)
    ensures IsAt(table, due, id, i + 1)
  {
  }

  lemma {:induction false} LaterIsListed(table: map<int, Status>, due: seq<int>, at: seq<nat>, i: nat)
    requires i + 1 < |due| && HasRowOrIsListed(table, due[1..], at, i)
    ensures HasRowOrIsListed(table, due, Later(at), i + 1)
  {
    if i in at {
      var n :| 0 <= n < |at| && at[n] == i;
      assert Later(at)[n] == i + 1;
    }
  }

  lemma {:induction false} AllLater(table: map<int, Status>, due: seq<int>, left: seq<int>, at: seq<nat>)
    requires due != [] && AreLeft(table, due[1..], left, at)
    ensures forall n :: 0 <= n < |at| ==> IsAt(table, due, left[n], Later(at)[n])
    ensures forall i :: 1 <= i < |due| ==> HasRowOrIsListed(table, due, Later(at), i)
  {
    forall n | 0 <= n < |at| ensures IsAt(table, due, left[n], Later(at)[n]) {
      LaterIsAt(table, due, left[n], at[n]);
    }
    forall i | 1 <= i < |due| ensures HasRowOrIsListed(table, due, Later(at), i) {
      LaterIsListed(table, due, at, i - 1);
    }
  }

  lemma {:induction false} HeadHasRow(table: map<int, Status>, due: seq<int>, left: seq<int>, at: seq<nat>)
    requires due != [] && due[0] in table && AreLeft(table, due[1..], left, at)
    ensures AreLeft(table, due, left, Later(at))
  {
    LaterIncreases(at);
    AllLater(table, due, left, at);
    assert HasRowOrIsListed(table, due, Later(at), 0);
  }

  lemma {:induction false} HeadIsLeft(table: map<int, Status>, due: seq<int>, left: seq<int>, at: seq<nat>)
    requires due != [] && due[0] !in table && AreLeft(table, due[1..], left, at)
    ensures AreLeft(table, due, [due[0]] + left, [0] + Later(at))
  {
    LaterIncreases(at);
    AllLater(table, due, left, at);
    var more := [0] + Later(at);
    assert more[0] == 0 && IsAt(table, due, due[0], 0);
    forall i | 0 <= i < |due| ensures HasRowOrIsListed(table, due, more, i) {
      if i > 0 { assert HasRowOrIsListed(table, due, Later(at), i); }
    }
  }

  lemma {:induction false} UndeliveredAreLeft(table: map<int, Status>, due: seq<int>) returns (at: seq<nat>)
    ensures AreLeft(table, due, Undelivered(table, due), at)
    decreases |due|
  {
    if due == [] {
      at := [];
    } else {
      at := UndeliveredAreLeft(table, due[1..]);
      if due[0] in table {
        HeadHasRow(table, due, Undelivered(table, due[1..]), at);
        at := Later(at);
      } else {
        HeadIsLeft(table, due, Undelivered(table, due[1..]), at);
        at := [0] + Later(at);
      }
    }
  }

  // ---------------------------------------------------------------------------
  // What each event does
  // ---------------------------------------------------------------------------

  /** The call drains the session: it is delivering the first of `left`, if there is one. */
  predicate Delivers(s: State, call: nat, session: int, left: seq<int>) {
    && call in s.drains
    && s.drains[call] == (if left == [] then Drain(session, None, []) else Drain(session, Some(left[0]), left[1..]))
  }

  /** The attempts started grow by that of the first of `left`, if there is one. */
  ghost predicate StartsFirst(s: State, t: State, left: seq<int>) {
    t.starts == s.starts + if left == [] then multiset{} else multiset{left[0]}
  }

  predicate OtherDrainsStay(s: State, t: State, call: nat) {
    forall a :: a in s.drains && a != call ==> a in t.drains && t.drains[a] == s.drains[a]
  }

  /**
   A poll of a session in flight does nothing. Any other takes the guard and starts on the
   first due message without a row, with those that follow it left to do.
   */
  lemma {:induction false} PollOutcome(s: State, call: nat, session: int, due: seq<int>)
    returns (left: seq<int>, at: seq<nat>)
    requires call !in s.drains
    ensures AreLeft(s.table, due, left, at)
    ensures var t := Step(s, Poll(call, session, due));
      && (session in s.inflight ==> t == s)
      && (session !in s.inflight ==>
            && t.inflight == s.inflight + {session} && Delivers(t, call, session, left) && StartsFirst(s, t, left)
            && OtherDrainsStay(s, t, call) && t.table == s.table && t.attempts == s.attempts
            && t.successes == s.successes && t.failures == s.failures)
  {
    left := Undelivered(s.table, due);
    at := UndeliveredAreLeft(s.table, due);
  }

  /** An attempt that returns gives its message a row as delivered, and the loop goes on to the next one. */
  lemma {:induction false} ReturnedOutcome(owner: Owner, s: State, call: nat, id: int)
    requires Reachable(owner, s) && call in s.drains && s.drains[call].current == Some(id)
    ensures var t := Step(s, Returned(call));
      && id !in s.table && t.table == s.table[id := Delivered] && t.attempts == s.attempts - {id}
      && t.successes == s.successes + multiset{id} && t.failures == s.failures
      && t.inflight == s.inflight && OtherDrainsStay(s, t, call)
      && Delivers(t, call, s.drains[call].session, s.drains[call].rest) && StartsFirst(s, t, s.drains[call].rest)
  {
    ReachableIsInv(owner, s);
    CurrentIsPending(s.drains[call]);
    PendingIsOnlyHere(owner, s, call, id);
  }

  /**
   An attempt that throws is counted, and the loop goes on to the next message. The third
   one gives its message a row as failed.
   */
  lemma {:induction false} ThrewOutcome(owner: Owner, s: State, call: nat, id: int)
    requires Reachable(owner, s) && call in s.drains && s.drains[call].current == Some(id)
    ensures var t := Step(s, Threw(call));
      && id !in s.table && s.failures[id] <= 2
      && (s.failures[id] == 2 ==> t.table == s.table[id := Failed] && t.attempts == s.attempts - {id})
      && (s.failures[id] < 2 ==> t.table == s.table && t.attempts == s.attempts[id := s.failures[id] + 1])
      && t.successes == s.successes && t.failures == s.failures + multiset{id}
      && t.inflight == s.inflight && OtherDrainsStay(s, t, call)
      && Delivers(t, call, s.drains[call].session, s.drains[call].rest) && StartsFirst(s, t, s.drains[call].rest)
  {
    ReachableIsInv(owner, s);
    CurrentIsPending(s.drains[call]);
    PendingIsOnlyHere(owner, s, call, id);
    assert CountsOk(s, id);
  }

  /** A drain that has nothing left lifts the guard of its session when it ends. */
  lemma {:induction false} EndedOutcome(s: State, call: nat)
    requires call in s.drains && s.drains[call].current.None?
    ensures var t := Step(s, Ended(call));
      && t.drains == s.drains - {call} && t.inflight == s.inflight - {s.drains[call].session}
      && t.table == s.table && t.attempts == s.attempts
      && t.starts == s.starts && t.successes == s.successes && t.failures == s.failures
  {
  }

  // ---------------------------------------------------------------------------
  // What a drain has done
  // ---------------------------------------------------------------------------

  /** The event ends the attempt that the call is making. */
  predicate EndsAttempt(s: State, e: Event, call: nat) {
    (e == Returned(call) || e == Threw(call)) && call in s.drains && s.drains[call].current.Some?
  }

  /** The messages whose attempts by this call end in the events from `i` up to `k`, in order. */
  function AttemptedBy(b: seq<State>, es: seq<Event>, call: nat, i: nat, k: nat): seq<int>
    requires i <= k < |b| == |es| + 1
    decreases k
  {
    if i == k then []
    else
      AttemptedBy(b, es, call, i, k - 1) + Taken(b[k - 1], es[k - 1], call)
  }

  predicate Ends(s: State, e: Event, call: nat) {
    e == Ended(call) && call in s.drains && s.drains[call].current.None?
  }

  lemma {:induction false} OwnStepTakesFirst(s: State, e: Event, call: nat)
    requires EndsAttempt(s, e, call)
    ensures call in Step(s, e).drains
    ensures Pending(s.drains[call]) == [s.drains[call].current.value] + Pending(Step(s, e).drains[call])
  {
    var d := s.drains[call];
    var t := if e.Returned? then Succeed(s, d.current.value) else Fail(s, d.current.value);
    assert Step(s, e) == Continue(t, call, d.session, d.rest);
    ContinuePending(t, call, d.session, d.rest);
  }

  lemma {:induction false} OtherStepLeavesDrain(s: State, e: Event, call: nat)
    requires call in s.drains && !Ends(s, e, call) && !EndsAttempt(s, e, call)
    ensures call in Step(s, e).drains && Step(s, e).drains[call] == s.drains[call]
  {
  }

  function Taken(s: State, e: Event, call: nat): seq<int> {
    if EndsAttempt(s, e, call) then [s.drains[call].current.value] else []
  }

  /** Until a drain ends, each of its attempts takes the first message off what it has to do. */
  lemma {:induction false} StepTakesFirst(s: State, e: Event, call: nat)
    requires call in s.drains && !Ends(s, e, call)
    ensures call in Step(s, e).drains
    ensures Pending(s.drains[call]) == Taken(s, e, call) + Pending(Step(s, e).drains[call])
  {
    if EndsAttempt(s, e, call) {
      OwnStepTakesFirst(s, e, call);
    } else {
      OtherStepLeavesDrain(s, e, call);
    }
  }

  lemma {:induction false} MovesOver<T>(before: seq<T>, taken: seq<T>, pending: seq<T>, all: seq<T>)
    requires before + (taken + pending) == all
    ensures (before + taken) + pending == all
  {
  }

  /** The call drains its session from state `i` on and has not ended before event `k`. */
  ghost predicate Draining(owner: Owner, b: seq<State>, es: seq<Event>, call: nat, i: nat, k: nat) {
    && Behavior(owner, b, es) && i <= k < |b| && call in b[i].drains
    && forall n :: i <= n < k ==> !Ends(b[n], es[n], call)
  }

  lemma {:induction false} TakenAndPending(owner: Owner, b: seq<State>, es: seq<Event>, call: nat, i: nat, k: nat)
    requires Draining(owner, b, es, call, i, k)
    ensures call in b[k].drains
    ensures AttemptedBy(b, es, call, i, k) + Pending(b[k].drains[call]) == Pending(b[i].drains[call])
    decreases k
  {
    if i < k {
      TakenAndPending(owner, b, es, call, i, k - 1);
      assert StepAt(owner, b, es, k);
      var s, e := b[k - 1], es[k - 1];
      StepTakesFirst(s, e, call);
      MovesOver(AttemptedBy(b, es, call, i, k - 1), Taken(s, e, call), Pending(b[k].drains[call]), Pending(b[i].drains[call]));
    }
  }

  lemma {:induction false} PollStarts(owner: Owner, b: seq<State>, es: seq<Event>, p: nat) returns (at: seq<nat>)
    requires Behavior(owner, b, es) && p < |es| && es[p].Poll?
    requires es[p].call !in b[p].drains && es[p].session !in b[p].inflight
    ensures es[p].call in b[p + 1].drains && Distinct(Pending(b[p + 1].drains[es[p].call]))
    ensures AreLeft(b[p].table, es[p].due, Pending(b[p + 1].drains[es[p].call]), at)
  {
    assert StepAt(owner, b, es, p + 1);
    var left;
    left, at := PollOutcome(b[p], es[p].call, es[p].session, es[p].due);
    if left != [] { assert [left[0]] + left[1..] == left; }
    BehaviorKeepsInv(owner, b, es, p + 1);
    assert DrainOk(owner, b[p + 1].table, b[p + 1].drains[es[p].call]);
  }

  lemma {:induction false} NothingPending(owner: Owner, b: seq<State>, es: seq<Event>, call: nat, k: nat)
    requires Behavior(owner, b, es) && k < |es| && Ends(b[k], es[k], call)
    ensures Pending(b[k].drains[call]) == []
  {
    BehaviorKeepsInv(owner, b, es, k);
    assert DrainOk(owner, b[k].table, b[k].drains[call]);
  }

  /**
   A poll that starts a drain at event `p` and a drain that ends at event `k`, with any
   other events in between: the call has attempted every due message that had no row at
   the poll, each once and in order, and nothing else.
   */
  lemma {:induction false} DrainAttemptsEachOnce(owner: Owner, b: seq<State>, es: seq<Event>, call: nat, p: nat, k: nat)
    returns (at: seq<nat>)
    requires Behavior(owner, b, es) && p < k < |es| && es[p].Poll? && es[p].call == call
    requires call !in b[p].drains && es[p].session !in b[p].inflight
    requires Ends(b[k], es[k], call) && forall n :: p < n < k ==> !Ends(b[n], es[n], call)
    ensures AreLeft(b[p].table, es[p].due, AttemptedBy(b, es, call, p + 1, k), at)
    ensures Distinct(AttemptedBy(b, es, call, p + 1, k))
  {
    at := PollStarts(owner, b, es, p);
    TakenAndPending(owner, b, es, call, p + 1, k);
    NothingPending(owner, b, es, call, k);
    assert AttemptedBy(b, es, call, p + 1, k) == Pending(b[p + 1].drains[call]);
  }
}
