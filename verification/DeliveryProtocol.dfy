/**
 Delivery of outbound messages under any number of polls that race on the same
 sessions: the in-flight guard, the attempt counters and the table of outcomes. Message
 ids are unique over all sessions, and writing to the table does not fail.
 */
module DeliveryProtocol {
  import opened Wrappers

  datatype Status = Delivered | Failed

  /** One call that drains a session: the message being delivered and those after it. */
  datatype Drain = Drain(session: int, current: Option<int>, rest: seq<int>)

  /** `starts`, `successes` and `failures` record the attempts made so far. */
  datatype State = State(
    inflight: set<int>,
    drains: map<nat, Drain>,
    attempts: map<int, nat>,
    table: map<int, Status>,
    starts: multiset<int>,
    successes: multiset<int>,
    failures: multiset<int>)

  /**
   A poll that finds these due messages, an attempt that returns, one that throws, and
   the end of a drain that has nothing left.
   */
  datatype Event =
    | Poll(call: nat, session: int, due: seq<int>)
    | Returned(call: nat)
    | Threw(call: nat)
    | Ended(call: nat)

  const MaxAttempts := 3

  function Init(): State {
    State({}, map[], map[], map[], multiset{}, multiset{}, multiset{})
  }

  function Undelivered(table: map<int, Status>, due: seq<int>): (r: seq<int>)
    ensures forall k :: 0 <= k < |r| ==> r[k] in due && r[k] !in table
  {
    if due == [] then []
    else (if due[0] in table then [] else [due[0]]) + Undelivered(table, due[1..])
  }

  /** The loop goes on to its next message, if there is one. */
  function Continue(s: State, call: nat, session: int, left: seq<int>): State {
    if left == [] then s.(drains := s.drains[call := Drain(session, None, [])])
    else s.(drains := s.drains[call := Drain(session, Some(left[0]), left[1..])], starts := s.starts + multiset{left[0]})
  }

  /** `INSERT OR IGNORE`. */
  function Insert(table: map<int, Status>, id: int, status: Status): map<int, Status> {
    if id in table then table else table[id := status]
  }

  /** Inserting is the one change of the table that gives a message a row and keeps every row there is. */
  lemma {:induction false} OneRowMore(before: map<int, Status>, after: map<int, Status>, id: int, status: Status)
    requires after.Keys == before.Keys + {id}
    requires forall row :: row in before ==> after[row] == before[row]
    requires id !in before ==> after[id] == status
    ensures after == Insert(before, id, status)
  {
    var inserted := Insert(before, id, status);
    assert after.Keys == inserted.Keys;
    forall row | row in after.Keys ensures after[row] == inserted[row] {
      assert row in before || row == id;
    }
  }

  function AttemptsOf(attempts: map<int, nat>, id: int): nat {
    if id in attempts then attempts[id] else 0
  }

  function Succeed(s: State, id: int): State {
    s.(table := Insert(s.table, id, Delivered), attempts := s.attempts - {id}, successes := s.successes + multiset{id})
  }

  function Fail(s: State, id: int): State {
    var tried := AttemptsOf(s.attempts, id) + 1;
    if tried >= MaxAttempts then
      s.(table := Insert(s.table, id, Failed), attempts := s.attempts - {id}, failures := s.failures + multiset{id})
    else s.(attempts := s.attempts[id := tried], failures := s.failures + multiset{id})
  }

  predicate IsWaiting(s: State, call: nat) {
    call in s.drains && s.drains[call].current.Some?
  }

  function Step(s: State, e: Event): State {
    match e
    case Poll(call, session, due) =>
      if session in s.inflight || call in s.drains then s
      else Continue(s.(inflight := s.inflight + {session}), call, session, Undelivered(s.table, due))
    case Returned(call) =>
      if !IsWaiting(s, call) then s
      else Continue(Succeed(s, s.drains[call].current.value), call, s.drains[call].session, s.drains[call].rest)
    case Threw(call) =>
      if !IsWaiting(s, call) then s
      else Continue(Fail(s, s.drains[call].current.value), call, s.drains[call].session, s.drains[call].rest)
    case Ended(call) =>
      if call !in s.drains || s.drains[call].current.Some? then s
      else s.(drains := s.drains - {call}, inflight := s.inflight - {s.drains[call].session})
  }

  // ---------------------------------------------------------------------------
  // The invariant
  // ---------------------------------------------------------------------------

  type Owner = int -> int

  predicate Distinct(ids: seq<int>) {
    forall i, j :: 0 <= i < j < |ids| ==> ids[i] != ids[j]
  }

  /** A poll reads rows of its own session, each once. */
  ghost predicate Allowed(owner: Owner, e: Event) {
    e.Poll? ==> Distinct(e.due) && forall k :: 0 <= k < |e.due| ==> owner(e.due[k]) == e.session
  }

  function Pending(d: Drain): seq<int> {
    (if d.current.Some? then [d.current.value] else []) + d.rest
  }

  /** No session is drained twice at once, and the guard names the sessions being drained. */
  ghost predicate Guarded(inflight: set<int>, drains: map<nat, Drain>) {
    && (forall a, b :: a in drains && b in drains && a != b ==> drains[a].session != drains[b].session)
    && (forall a :: a in drains ==> drains[a].session in inflight)
    && (forall session :: session in inflight ==> exists a :: a in drains && drains[a].session == session)
  }

  ghost predicate DrainOk(owner: Owner, table: map<int, Status>, d: Drain) {
    && Distinct(Pending(d)) && (d.current.None? ==> d.rest == [])
    && (forall k :: 0 <= k < |Pending(d)| ==> owner(Pending(d)[k]) == d.session && Pending(d)[k] !in table)
  }

  ghost predicate DrainsOk(owner: Owner, table: map<int, Status>, drains: map<nat, Drain>) {
    forall a :: a in drains ==> DrainOk(owner, table, drains[a])
  }

  ghost predicate Current(drains: map<nat, Drain>, id: int) {
    exists a :: a in drains && drains[a].current == Some(id)
  }

  /** The record of one message agrees with its counter and its row. */
  ghost predicate CountsOk(s: State, id: int) {
    if id in s.table then
      && id !in s.attempts
      && s.starts[id] == s.successes[id] + s.failures[id]
      && (if s.table[id] == Delivered then s.successes[id] == 1 && s.failures[id] < MaxAttempts
          else s.successes[id] == 0 && s.failures[id] == MaxAttempts)
    else
      && s.successes[id] == 0 && s.failures[id] == AttemptsOf(s.attempts, id) < MaxAttempts
      && s.starts[id] == s.failures[id] + if Current(s.drains, id) then 1 else 0
  }

  ghost predicate Inv(owner: Owner, s: State) {
    && Guarded(s.inflight, s.drains)
    && DrainsOk(owner, s.table, s.drains)
    && forall id :: CountsOk(s, id)
  }

  // ---------------------------------------------------------------------------
  // Every step keeps it
  // ---------------------------------------------------------------------------

  lemma {:induction false} UndeliveredDistinct(table: map<int, Status>, due: seq<int>)
    requires Distinct(due)
    ensures Distinct(Undelivered(table, due))
  {
    if due != [] {
      UndeliveredDistinct(table, due[1..]);
      assert due[0] !in due[1..];
    }
  }

  lemma {:induction false} CurrentIsPending(d: Drain)
    ensures d.current.Some? ==> d.current.value in Pending(d)
  {
    if d.current.Some? { assert Pending(d)[0] == d.current.value; }
  }

  /** No other drain has this message before it. */
  ghost predicate OnlyHere(drains: map<nat, Drain>, call: nat, id: int) {
    forall a :: a in drains && a != call ==> id !in Pending(drains[a])
  }

  /** Messages of other drains belong to other sessions. */
  lemma {:induction false} PendingIsOnlyHere(owner: Owner, s: State, call: nat, id: int)
    requires Guarded(s.inflight, s.drains) && DrainsOk(owner, s.table, s.drains)
    requires call in s.drains && id in Pending(s.drains[call])
    ensures OnlyHere(s.drains, call, id) && owner(id) == s.drains[call].session && id !in s.table
  {
    var i :| 0 <= i < |Pending(s.drains[call])| && Pending(s.drains[call])[i] == id;
    assert DrainOk(owner, s.table, s.drains[call]);
    forall a | a in s.drains && a != call ensures id !in Pending(s.drains[a]) {
      assert DrainOk(owner, s.table, s.drains[a]);
    }
  }

  lemma {:induction false} CurrentOnlyHere(drains: map<nat, Drain>, call: nat, id: int)
    requires OnlyHere(drains, call, id)
    ensures Current(drains, id) <==> call in drains && drains[call].current == Some(id)
  {
    forall a | a in drains && a != call ensures drains[a].current != Some(id) {
      CurrentIsPending(drains[a]);
    }
  }

  lemma {:induction false} CurrentElsewhere(drains: map<nat, Drain>, call: nat, d: Drain, id: int)
    requires d.current != Some(id) && (call in drains ==> drains[call].current != Some(id))
    ensures Current(drains[call := d], id) <==> Current(drains, id)
  {
    var drains' := drains[call := d];
    if Current(drains, id) {
      var a :| a in drains && drains[a].current == Some(id);
      assert a in drains' && drains'[a].current == Some(id);
    }
  }

  /** What a step leaves as it was for one message. */
  ghost predicate Untouched(s: State, t: State, id: int) {
    && (id in s.table <==> id in t.table) && (id in s.table ==> s.table[id] == t.table[id])
    && (id in s.attempts <==> id in t.attempts) && (id in s.attempts ==> s.attempts[id] == t.attempts[id])
    && s.starts[id] == t.starts[id] && s.successes[id] == t.successes[id] && s.failures[id] == t.failures[id]
    && (Current(s.drains, id) <==> Current(t.drains, id))
  }

  lemma {:induction false} UntouchedCounts(s: State, t: State, id: int)
    requires CountsOk(s, id) && Untouched(s, t, id)
    ensures CountsOk(t, id)
  {
  }

  /** The state after an attempt, before the loop goes on; `id` is settled or counted. */
  ghost predicate Attempted(s: State, t: State, id: int) {
    && t.inflight == s.inflight && t.drains == s.drains && t.starts == s.starts
    && (forall x :: x in s.table ==> x in t.table && t.table[x] == s.table[x])
    && (forall x :: x != id ==> Untouched(s, t, x))
    && (if id in t.table then
          && id !in t.attempts && t.starts[id] == t.successes[id] + t.failures[id]
          && (if t.table[id] == Delivered then t.successes[id] == 1 && t.failures[id] < MaxAttempts
              else t.successes[id] == 0 && t.failures[id] == MaxAttempts)
        else t.successes[id] == 0 && t.starts[id] == t.failures[id] == AttemptsOf(t.attempts, id) < MaxAttempts)
  }

  lemma {:induction false} SucceedAttempts(s: State, id: int)
    requires CountsOk(s, id) && Current(s.drains, id) && id !in s.table
    ensures Attempted(s, Succeed(s, id), id)
  {
  }

  lemma {:induction false} FailAttempts(s: State, id: int)
    requires CountsOk(s, id) && Current(s.drains, id) && id !in s.table
    ensures Attempted(s, Fail(s, id), id)
  {
  }

  lemma {:induction false} ContinueIsGuarded(s: State, t: State, call: nat)
    requires Guarded(s.inflight, s.drains) && call in s.drains
    requires t.inflight == s.inflight && t.drains == s.drains
    ensures Guarded(t.inflight, Continue(t, call, s.drains[call].session, s.drains[call].rest).drains)
  {
    var drains := Continue(t, call, s.drains[call].session, s.drains[call].rest).drains;
    forall session | session in t.inflight ensures exists a :: a in drains && drains[a].session == session {
      var a :| a in s.drains && s.drains[a].session == session;
      assert a in drains && drains[a].session == session;
    }
  }

  lemma {:induction false} ContinuePending(s: State, call: nat, session: int, left: seq<int>)
    ensures Pending(Continue(s, call, session, left).drains[call]) == left
  {
    if left != [] { assert [left[0]] + left[1..] == left; }
  }

  /** The rest of the list is as good as the list was, and free of its head. */
  lemma {:induction false} RestIsOk(owner: Owner, table: map<int, Status>, d: Drain, id: int)
    requires DrainOk(owner, table, d) && d.current == Some(id)
    ensures Distinct(d.rest) && id !in d.rest
    ensures forall k :: 0 <= k < |d.rest| ==> owner(d.rest[k]) == d.session && d.rest[k] !in table
  {
    assert Pending(d) == [id] + d.rest && Pending(d)[0] == id;
    assert forall k :: 0 <= k < |d.rest| ==> Pending(d)[k + 1] == d.rest[k];
  }

  /** A row for `id` does not concern lists without it. */
  lemma {:induction false} TableGrows(s: State, t: State, id: int, ids: seq<int>)
    requires Attempted(s, t, id) && id !in ids && forall k :: 0 <= k < |ids| ==> ids[k] !in s.table
    ensures forall k :: 0 <= k < |ids| ==> ids[k] !in t.table
  {
    forall k | 0 <= k < |ids| ensures ids[k] !in t.table {
      assert Untouched(s, t, ids[k]);
    }
  }

  lemma {:induction false} OwnDrainOk(owner: Owner, t: State, call: nat, session: int, left: seq<int>)
    requires Distinct(left) && forall k :: 0 <= k < |left| ==> owner(left[k]) == session && left[k] !in t.table
    ensures DrainOk(owner, t.table, Continue(t, call, session, left).drains[call])
  {
    ContinuePending(t, call, session, left);
  }

  lemma {:induction false} OtherDrainOk(owner: Owner, s: State, t: State, id: int, d: Drain)
    requires DrainOk(owner, s.table, d) && Attempted(s, t, id) && id !in Pending(d)
    ensures DrainOk(owner, t.table, d)
  {
    TableGrows(s, t, id, Pending(d));
  }

  lemma {:induction false} ContinueDrainsOk(owner: Owner, s: State, t: State, call: nat, id: int)
    requires DrainsOk(owner, s.table, s.drains) && Attempted(s, t, id)
    requires call in s.drains && s.drains[call].current == Some(id) && OnlyHere(s.drains, call, id)
    ensures DrainsOk(owner, t.table, Continue(t, call, s.drains[call].session, s.drains[call].rest).drains)
  {
    var d := s.drains[call];
    var drains := Continue(t, call, d.session, d.rest).drains;
    RestIsOk(owner, s.table, d, id);
    TableGrows(s, t, id, d.rest);
    OwnDrainOk(owner, t, call, d.session, d.rest);
    forall a | a in drains ensures DrainOk(owner, t.table, drains[a]) {
      if a != call {
        OtherDrainOk(owner, s, t, id, s.drains[a]);
      }
    }
  }

  lemma {:induction false} ContinueCountsSelf(s: State, t: State, call: nat, id: int, session: int, rest: seq<int>)
    requires Attempted(s, t, id) && OnlyHere(s.drains, call, id) && id !in rest
    ensures CountsOk(Continue(t, call, session, rest), id)
  {
    var u := Continue(t, call, session, rest);
    ContinuePending(t, call, session, rest);
    assert OnlyHere(u.drains, call, id);
    CurrentOnlyHere(u.drains, call, id);
  }

  lemma {:induction false} ContinueCountsNext(s: State, t: State, call: nat, id: int, session: int, rest: seq<int>)
    requires rest != [] && rest[0] != id && Untouched(s, t, rest[0]) && CountsOk(s, rest[0])
    requires rest[0] !in s.table && !Current(s.drains, rest[0])
    ensures CountsOk(Continue(t, call, session, rest), rest[0])
  {
    assert Continue(t, call, session, rest).drains[call].current == Some(rest[0]);
  }

  lemma {:induction false} ContinueCountsOther(s: State, t: State, call: nat, session: int, rest: seq<int>, x: int)
    requires t.drains == s.drains && t.starts == s.starts && Untouched(s, t, x) && CountsOk(s, x)
    requires call in s.drains && s.drains[call].current != Some(x) && (rest != [] ==> x != rest[0])
    ensures CountsOk(Continue(t, call, session, rest), x)
  {
    var u := Continue(t, call, session, rest);
    CurrentElsewhere(s.drains, call, u.drains[call], x);
    UntouchedCounts(s, u, x);
  }

  lemma {:induction false} ContinueCounts(owner: Owner, s: State, t: State, call: nat, id: int, x: int)
    requires Inv(owner, s) && Attempted(s, t, id)
    requires call in s.drains && s.drains[call].current == Some(id)
    ensures CountsOk(Continue(t, call, s.drains[call].session, s.drains[call].rest), x)
  {
    var d := s.drains[call];
    assert DrainOk(owner, s.table, d) && CountsOk(s, x);
    RestIsOk(owner, s.table, d, id);
    CurrentIsPending(d);
    if x == id {
      PendingIsOnlyHere(owner, s, call, id);
      ContinueCountsSelf(s, t, call, id, d.session, d.rest);
    } else if d.rest != [] && x == d.rest[0] {
      assert Pending(d)[1] == x;
      PendingIsOnlyHere(owner, s, call, x);
      CurrentOnlyHere(s.drains, call, x);
      ContinueCountsNext(s, t, call, id, d.session, d.rest);
    } else {
      ContinueCountsOther(s, t, call, d.session, d.rest, x);
    }
  }

  lemma {:induction false} AttemptKeepsInv(owner: Owner, s: State, t: State, call: nat, id: int)
    requires Inv(owner, s) && Attempted(s, t, id)
    requires call in s.drains && s.drains[call].current == Some(id)
    ensures Inv(owner, Continue(t, call, s.drains[call].session, s.drains[call].rest))
  {
    assert Pending(s.drains[call])[0] == id;
    PendingIsOnlyHere(owner, s, call, id);
    ContinueIsGuarded(s, t, call);
    ContinueDrainsOk(owner, s, t, call, id);
    forall x ensures CountsOk(Continue(t, call, s.drains[call].session, s.drains[call].rest), x) {
      ContinueCounts(owner, s, t, call, id, x);
    }
  }

  lemma {:induction false} ResultKeepsInv(owner: Owner, s: State, e: Event)
    requires Inv(owner, s) && (e.Returned? || e.Threw?)
    ensures Inv(owner, Step(s, e))
  {
    if IsWaiting(s, e.call) {
      var id := s.drains[e.call].current.value;
      assert Pending(s.drains[e.call])[0] == id;
      PendingIsOnlyHere(owner, s, e.call, id);
      assert CountsOk(s, id);
      if e.Returned? {
        SucceedAttempts(s, id);
        AttemptKeepsInv(owner, s, Succeed(s, id), e.call, id);
      } else {
        FailAttempts(s, id);
        AttemptKeepsInv(owner, s, Fail(s, id), e.call, id);
      }
    }
  }

  lemma {:induction false} EndedKeepsInv(owner: Owner, s: State, e: Event)
    requires Inv(owner, s) && e.Ended?
    ensures Inv(owner, Step(s, e))
  {
    var t := Step(s, e);
    if t != s {
      forall session | session in t.inflight ensures exists a :: a in t.drains && t.drains[a].session == session {
        var a :| a in s.drains && s.drains[a].session == session;
        assert a in t.drains;
      }
      forall id ensures CountsOk(t, id) {
        if Current(s.drains, id) {
          var a :| a in s.drains && s.drains[a].current == Some(id);
          assert a in t.drains && t.drains[a].current == Some(id);
        }
        assert CountsOk(s, id);
        UntouchedCounts(s, t, id);
      }
    }
  }

  lemma {:induction false} PollIsGuarded(s: State, call: nat, session: int, d: Drain)
    requires Guarded(s.inflight, s.drains) && call !in s.drains && session !in s.inflight && d.session == session
    ensures Guarded(s.inflight + {session}, s.drains[call := d])
  {
    var drains := s.drains[call := d];
    forall x | x in s.inflight + {session} ensures exists a :: a in drains && drains[a].session == x {
      if x == session {
        assert drains[call].session == x;
      } else {
        var a :| a in s.drains && s.drains[a].session == x;
        assert a in drains && drains[a].session == x;
      }
    }
  }

  /** Nothing of a session outside the guard is being delivered. */
  lemma {:induction false} NotCurrent(owner: Owner, s: State, id: int)
    requires Guarded(s.inflight, s.drains) && DrainsOk(owner, s.table, s.drains) && owner(id) !in s.inflight
    ensures !Current(s.drains, id)
  {
    forall a | a in s.drains ensures s.drains[a].current != Some(id) {
      assert DrainOk(owner, s.table, s.drains[a]);
      CurrentIsPending(s.drains[a]);
    }
  }

  lemma {:induction false} PollCounts(owner: Owner, s: State, call: nat, session: int, left: seq<int>, id: int)
    requires Inv(owner, s) && call !in s.drains && session !in s.inflight
    requires left != [] ==> owner(left[0]) == session && left[0] !in s.table
    ensures CountsOk(Continue(s.(inflight := s.inflight + {session}), call, session, left), id)
  {
    var t := Continue(s.(inflight := s.inflight + {session}), call, session, left);
    assert CountsOk(s, id);
    if left != [] && id == left[0] {
      NotCurrent(owner, s, id);
      assert t.drains[call].current == Some(id);
    } else {
      CurrentElsewhere(s.drains, call, t.drains[call], id);
      UntouchedCounts(s, t, id);
    }
  }

  lemma {:induction false} PollDrainsOk(owner: Owner, s: State, call: nat, d: Drain)
    requires DrainsOk(owner, s.table, s.drains) && DrainOk(owner, s.table, d)
    ensures DrainsOk(owner, s.table, s.drains[call := d])
  {
  }

  lemma {:induction false} PollKeepsInv(owner: Owner, s: State, e: Event)
    requires Inv(owner, s) && e.Poll? && Allowed(owner, e)
    ensures Inv(owner, Step(s, e))
  {
    var t := Step(s, e);
    if t != s {
      var left := Undelivered(s.table, e.due);
      UndeliveredDistinct(s.table, e.due);
      forall k | 0 <= k < |left| ensures owner(left[k]) == e.session {
        assert left[k] in e.due;
      }
      ContinuePending(s.(inflight := s.inflight + {e.session}), e.call, e.session, left);
      PollIsGuarded(s, e.call, e.session, t.drains[e.call]);
      PollDrainsOk(owner, s, e.call, t.drains[e.call]);
      forall id ensures CountsOk(t, id) {
        PollCounts(owner, s, e.call, e.session, left, id);
      }
    }
  }

  lemma {:induction false} StepKeepsInv(owner: Owner, s: State, e: Event)
    requires Inv(owner, s) && Allowed(owner, e)
    ensures Inv(owner, Step(s, e))
  {
    match e
    case Poll(_, _, _) => PollKeepsInv(owner, s, e);
    case Returned(_) => ResultKeepsInv(owner, s, e);
    case Threw(_) => ResultKeepsInv(owner, s, e);
    case Ended(_) => EndedKeepsInv(owner, s, e);
  }

  // ---------------------------------------------------------------------------
  // All interleavings
  // ---------------------------------------------------------------------------

  ghost predicate StepAt(owner: Owner, b: seq<State>, es: seq<Event>, i: nat)
    requires 0 < i < |b| == |es| + 1
  {
    Allowed(owner, es[i - 1]) && b[i] == Step(b[i - 1], es[i - 1])
  }

  ghost predicate Behavior(owner: Owner, b: seq<State>, es: seq<Event>) {
    && |b| == |es| + 1 && b[0] == Init()
    && forall i :: 0 < i < |b| ==> StepAt(owner, b, es, i)
  }

  lemma {:induction false} BehaviorKeepsInv(owner: Owner, b: seq<State>, es: seq<Event>, i: nat)
    requires Behavior(owner, b, es) && i < |b|
    ensures Inv(owner, b[i])
  {
    if i > 0 {
      BehaviorKeepsInv(owner, b, es, i - 1);
      assert StepAt(owner, b, es, i);
      StepKeepsInv(owner, b[i - 1], es[i - 1]);
    }
  }

  /** A state that some behavior ends in. */
  ghost predicate Reachable(owner: Owner, p: State) {
    exists b, es :: Behavior(owner, b, es) && b[|es|] == p
  }

  lemma {:induction false} InitIsReachable(owner: Owner)
    ensures Reachable(owner, Init())
  {
    var b, es: seq<Event> := [Init()], [];
    assert Behavior(owner, b, es);
    assert b[|es|] == Init();
  }

  lemma {:induction false} LongerBehavior(owner: Owner, b: seq<State>, es: seq<Event>, e: Event)
    requires Behavior(owner, b, es) && Allowed(owner, e)
    ensures Behavior(owner, b + [Step(b[|es|], e)], es + [e])
  {
    var longer, more := b + [Step(b[|es|], e)], es + [e];
    forall i | 0 < i < |longer| ensures StepAt(owner, longer, more, i) {
      if i < |b| { assert StepAt(owner, b, es, i); }
    }
  }

  lemma {:induction false} StepIsReachable(owner: Owner, p: State, e: Event)
    requires Reachable(owner, p) && Allowed(owner, e)
    ensures Reachable(owner, Step(p, e))
  {
    var b, es :| Behavior(owner, b, es) && b[|es|] == p;
    var longer, more := b + [Step(p, e)], es + [e];
    LongerBehavior(owner, b, es, e);
    assert longer[|more|] == Step(p, e);
  }

  lemma {:induction false} ReachableIsInv(owner: Owner, p: State)
    requires Reachable(owner, p)
    ensures Inv(owner, p)
  {
    var b, es :| Behavior(owner, b, es) && b[|es|] == p;
    BehaviorKeepsInv(owner, b, es, |es|);
  }

  /** A message is attempted at most three times, however the polls interleave. */
  lemma {:induction false} AtMostThreeAttempts(owner: Owner, b: seq<State>, es: seq<Event>, i: nat, id: int)
    requires Behavior(owner, b, es) && i < |b|
    ensures b[i].starts[id] <= MaxAttempts
  {
    BehaviorKeepsInv(owner, b, es, i);
    assert CountsOk(b[i], id);
  }

  /**
   Once recorded, a message is delivered when exactly one attempt returned, and failed
   when exactly three threw and none returned; before that at most two threw.
   */
  lemma {:induction false} RecordTellsTheOutcome(owner: Owner, b: seq<State>, es: seq<Event>, i: nat, id: int)
    requires Behavior(owner, b, es) && i < |b|
    ensures b[i].successes[id] <= 1
    ensures (id in b[i].table && b[i].table[id] == Delivered) <==> b[i].successes[id] == 1
    ensures (id in b[i].table && b[i].table[id] == Failed) <==> b[i].failures[id] == MaxAttempts
    ensures id in b[i].table ==> b[i].starts[id] == b[i].successes[id] + b[i].failures[id]
  {
    BehaviorKeepsInv(owner, b, es, i);
    assert CountsOk(b[i], id);
  }

  lemma {:induction false} RowStays(owner: Owner, s: State, e: Event, id: int)
    requires Inv(owner, s) && id in s.table
    ensures id in Step(s, e).table && Step(s, e).table[id] == s.table[id]
  {
    if IsWaiting(s, e.call) {
      CurrentIsPending(s.drains[e.call]);
      PendingIsOnlyHere(owner, s, e.call, s.drains[e.call].current.value);
    }
  }

  lemma {:induction false} NoMoreStarts(owner: Owner, s: State, e: Event, id: int)
    requires Inv(owner, s) && id in s.table
    ensures Step(s, e).starts[id] == s.starts[id]
  {
    if IsWaiting(s, e.call) {
      var d := s.drains[e.call];
      assert DrainOk(owner, s.table, d);
      RestIsOk(owner, s.table, d, d.current.value);
    }
  }

  lemma {:induction false} RowAfterStep(owner: Owner, s: State, e: Event, t: State, id: int)
    requires Inv(owner, s) && t == Step(s, e) && id in s.table
    ensures id in t.table && t.table[id] == s.table[id] && t.starts[id] == s.starts[id]
  {
    RowStays(owner, s, e, id);
    NoMoreStarts(owner, s, e, id);
  }

  lemma {:induction false} RowAfterOne(owner: Owner, b: seq<State>, es: seq<Event>, k: nat, id: int)
    requires Behavior(owner, b, es) && 0 < k < |b| && id in b[k - 1].table
    ensures id in b[k].table && b[k].table[id] == b[k - 1].table[id] && b[k].starts[id] == b[k - 1].starts[id]
  {
    BehaviorKeepsInv(owner, b, es, k - 1);
    assert StepAt(owner, b, es, k);
    RowAfterStep(owner, b[k - 1], es[k - 1], b[k], id);
  }

  /** A recorded outcome stays, and no attempt is started after it. */
  lemma {:induction false} NoAttemptAfterRecord(owner: Owner, b: seq<State>, es: seq<Event>, i: nat, k: nat, id: int)
    requires Behavior(owner, b, es) && i <= k < |b| && id in b[i].table
    ensures id in b[k].table && b[k].table[id] == b[i].table[id] && b[k].starts[id] == b[i].starts[id]
  {
    if i < k {
      NoAttemptAfterRecord(owner, b, es, i, k - 1, id);
      RowAfterOne(owner, b, es, k, id);
    }
  }

  /** No session is drained by two calls at once, and no message is attempted by two. */
  lemma {:induction false} OneDrainPerSession(owner: Owner, b: seq<State>, es: seq<Event>, i: nat, x: nat, y: nat)
    requires Behavior(owner, b, es) && i < |b| && x in b[i].drains && y in b[i].drains && x != y
    ensures b[i].drains[x].session != b[i].drains[y].session
    ensures b[i].drains[x].current.Some? ==> b[i].drains[x].current != b[i].drains[y].current
  {
    BehaviorKeepsInv(owner, b, es, i);
    CurrentIsPending(b[i].drains[x]);
    CurrentIsPending(b[i].drains[y]);
    if b[i].drains[x].current.Some? {
      PendingIsOnlyHere(owner, b[i], x, b[i].drains[x].current.value);
    }
  }
}
