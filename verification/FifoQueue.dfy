/**
 First-in-first-out queues of numbered entries. Numbers are given out in the order of
 arrival, so a queue that serves in that order is increasing, and so is the history of
 what it served followed by what still waits.
 */
module FifoQueue {
  import opened Wrappers

  type Id = nat

  function IndexOf(queue: seq<Id>, j: Id): (r: Option<nat>)
    ensures r.Some? ==> r.value < |queue| && queue[r.value] == j
    ensures r.None? ==> j !in queue
  {
    if queue == [] then None
    else if queue[0] == j then Some(0)
    else match IndexOf(queue[1..], j)
      case Some(k) => Some(k + 1)
      case None => None
  }

  /** `queue` with the first occurrence of `j` spliced out. */
  function Without(queue: seq<Id>, j: Id): seq<Id> {
    match IndexOf(queue, j)
    case Some(k) => queue[..k] + queue[k + 1..]
    case None => queue
  }

  predicate Increasing(js: seq<Id>) {
    forall i, k :: 0 <= i < k < |js| ==> js[i] < js[k]
  }

  /** What was served comes before what waits, all in the order of arrival. */
  ghost predicate Ordered(started: seq<Id>, queue: seq<Id>, next: Id) {
    && Increasing(started + queue)
    && forall i :: i in started || i in queue ==> 1 <= i < next
  }

  lemma {:induction false} OrderedParts(started: seq<Id>, queue: seq<Id>, next: Id)
    requires Ordered(started, queue, next)
    ensures Increasing(started) && Increasing(queue)
    ensures forall i, j :: i in started && j in queue ==> i < j
  {
    var all := started + queue;
    assert forall i :: 0 <= i < |started| ==> all[i] == started[i];
    assert forall i :: 0 <= i < |queue| ==> all[|started| + i] == queue[i];
  }

  /** Leaving out the entry at index `k`, as popping and splicing do. */
  lemma {:induction false} OrderedRemove(started: seq<Id>, queue: seq<Id>, next: Id, k: nat)
    requires Ordered(started, queue, next) && k < |queue|
    ensures var less := queue[..k] + queue[k + 1..];
      && Ordered(started, less, next)
      && forall i :: i in less <==> i in queue && i != queue[k]
  {
    var less := queue[..k] + queue[k + 1..];
    var all, rest := started + queue, started + less;
    forall i, l | 0 <= i < l < |rest| ensures rest[i] < rest[l] {
      assert rest[i] == all[if i < |started| + k then i else i + 1];
      assert rest[l] == all[if l < |started| + k then l else l + 1];
    }
    forall i ensures i in less <==> i in queue && i != queue[k] {
      if i in queue && i != queue[k] {
        var l :| 0 <= l < |queue| && queue[l] == i;
        assert less[if l < k then l else l - 1] == i;
      }
      if i in less {
        var l :| 0 <= l < |less| && less[l] == i;
        var m := if l < k then l else l + 1;
        assert queue[m] == i && all[|started| + m] == i && all[|started| + k] == queue[k];
      }
    }
  }

  lemma {:induction false} OrderedWithout(started: seq<Id>, queue: seq<Id>, next: Id, j: Id)
    requires Ordered(started, queue, next) && j in queue
    ensures Ordered(started, Without(queue, j), next) && |Without(queue, j)| < |queue|
    ensures forall i :: i in Without(queue, j) <==> i in queue && i != j
  {
    OrderedRemove(started, queue, next, IndexOf(queue, j).value);
  }

  lemma {:induction false} OrderedPop(started: seq<Id>, queue: seq<Id>, next: Id)
    requires Ordered(started, queue, next) && queue != []
    ensures Ordered(started + [queue[0]], queue[1..], next)
    ensures Ordered(started, queue[1..], next)
    ensures forall i :: i in queue[1..] <==> i in queue && i != queue[0]
  {
    assert started + [queue[0]] + queue[1..] == started + queue;
    OrderedRemove(started, queue, next, 0);
    assert queue[..0] + queue[0 + 1..] == queue[1..];
    forall i | i in started + [queue[0]] || i in queue[1..] ensures 1 <= i < next {
      assert i in started || i in queue;
    }
  }

  lemma {:induction false} OrderedPush(started: seq<Id>, queue: seq<Id>, next: Id)
    requires Ordered(started, queue, next) && next >= 1
    ensures Ordered(started, queue + [next], next + 1)
  {
    var all := started + queue;
    assert started + (queue + [next]) == all + [next];
    assert forall i :: 0 <= i < |all| ==> all[i] in started || all[i] in queue;
  }

  lemma {:induction false} IncreasingOnce(js: seq<Id>, j: Id)
    requires Increasing(js) && j in js
    ensures multiset(js)[j] == 1
  {
    var rest := js[1..];
    assert js == [js[0]] + rest;
    if js[0] == j {
      assert j !in rest;
    } else {
      IncreasingOnce(rest, j);
    }
  }
}
