/** Lists up to order: taking one element out, mapping, filtering, counting places and sums. */
module Permutations {

  function Without<T>(s: seq<T>, k: nat): (r: seq<T>)
    requires k < |s|
    ensures |r| == |s| - 1
  {
    s[..k] + s[k + 1..]
  }

  lemma {:induction false} WithoutOne<T>(s: seq<T>, k: nat)
    requires k < |s|
    ensures multiset(s) == multiset(Without(s, k)) + multiset{s[k]}
  {
    assert s == s[..k] + [s[k]] + s[k + 1..];
  }

  lemma {:induction false} HeadAndTail<T>(s: seq<T>)
    requires s != []
    ensures multiset(s) == multiset(s[1..]) + multiset{s[0]}
  {
    assert s == [s[0]] + s[1..];
  }

  lemma {:induction false} SameLength<T>(a: seq<T>, b: seq<T>)
    requires multiset(a) == multiset(b)
    ensures |a| == |b|
  {
    assert |multiset(a)| == |multiset(b)|;
  }

  lemma {:induction false} SameElement<T>(a: seq<T>, b: seq<T>, i: nat) returns (j: nat)
    requires multiset(a) == multiset(b) && i < |a|
    ensures j < |b| && b[j] == a[i]
  {
    assert a[i] in multiset(b);
    j :| 0 <= j < |b| && b[j] == a[i];
  }

  /** The last element of one list can be taken out of the other. */
  lemma {:induction false} MatchLast<T>(a: seq<T>, b: seq<T>) returns (j: nat)
    requires multiset(a) == multiset(b) && a != []
    ensures j < |b| && b[j] == a[|a| - 1] && multiset(a[..|a| - 1]) == multiset(Without(b, j))
  {
    var n := |a| - 1;
    j := SameElement(a, b, n);
    WithoutOne(a, n);
    WithoutOne(b, j);
    assert Without(a, n) == a[..n];
    assert multiset(a[..n]) == multiset(a) - multiset{a[n]};
    assert multiset(Without(b, j)) == multiset(b) - multiset{a[n]};
  }

  lemma {:induction false} SameTails<T>(a: seq<T>, b: seq<T>)
    requires a != [] && b != [] && a[0] == b[0] && multiset(a) == multiset(b)
    ensures multiset(a[1..]) == multiset(b[1..])
  {
    HeadAndTail(a);
    HeadAndTail(b);
    assert multiset(a[1..]) == multiset(a) - multiset{a[0]};
    assert multiset(b[1..]) == multiset(b) - multiset{b[0]};
  }

  /** Below the last place, taking out and cutting off commute. */
  lemma {:induction false} WithoutSnoc<T>(s: seq<T>, k: nat)
    requires k < |s|
    ensures k == |s| - 1 ==> Without(s, k) == s[..k]
    ensures k < |s| - 1 ==>
      Without(s, k)[..|s| - 2] == Without(s[..|s| - 1], k) && Without(s, k)[|s| - 2] == s[|s| - 1]
  {
  }

  // ---------------------------------------------------------------------------
  // Mapping, filtering, adding
  // ---------------------------------------------------------------------------

  function Map<T, U>(f: T -> U, s: seq<T>): (r: seq<U>)
    ensures |r| == |s| && forall i :: 0 <= i < |s| ==> r[i] == f(s[i])
  {
    seq(|s|, i requires 0 <= i < |s| => f(s[i]))
  }

  /** As `Map`, with the position as a second argument. */
  function MapIndexed<T, U>(f: (T, nat) -> U, s: seq<T>): (r: seq<U>)
    ensures |r| == |s| && forall i :: 0 <= i < |s| ==> r[i] == f(s[i], i)
  {
    seq(|s|, i requires 0 <= i < |s| => f(s[i], i))
  }

  lemma {:induction false} MapIndexedSnoc<T, U>(f: (T, nat) -> U, s: seq<T>, x: T)
    ensures MapIndexed(f, s + [x]) == MapIndexed(f, s) + [f(x, |s|)]
  {
  }

  lemma {:induction false} MapPermutes<T, U>(f: T -> U, a: seq<T>, b: seq<T>)
    requires multiset(a) == multiset(b)
    ensures multiset(Map(f, a)) == multiset(Map(f, b))
  {
    SameLength(a, b);
    if a != [] {
      var n := |a| - 1;
      var j := MatchLast(a, b);
      MapPermutes(f, a[..n], Without(b, j));
      assert Without(Map(f, a), n) == Map(f, a[..n]);
      assert Without(Map(f, b), j) == Map(f, Without(b, j));
      WithoutOne(Map(f, a), n);
      WithoutOne(Map(f, b), j);
    }
  }

  function Filter<T>(keep: T -> bool, s: seq<T>): (r: seq<T>)
    ensures |r| <= |s|
    ensures forall i :: 0 <= i < |r| ==> keep(r[i]) && r[i] in s
  {
    if s == [] then []
    else
      var n := |s| - 1;
      Filter(keep, s[..n]) + if keep(s[n]) then [s[n]] else []
  }

  lemma {:induction false} FilterNext<T>(keep: T -> bool, s: seq<T>, i: nat)
    requires i < |s|
    ensures Filter(keep, s[..i + 1]) == Filter(keep, s[..i]) + if keep(s[i]) then [s[i]] else []
  {
    assert s[..i + 1][..i] == s[..i];
  }

  lemma {:induction false} FilterWithout<T>(keep: T -> bool, s: seq<T>, k: nat)
    requires k < |s|
    ensures multiset(Filter(keep, s)) ==
      multiset(Filter(keep, Without(s, k))) + if keep(s[k]) then multiset{s[k]} else multiset{}
  {
    WithoutSnoc(s, k);
    if k < |s| - 1 {
      FilterWithout(keep, s[..|s| - 1], k);
    }
  }

  lemma {:induction false} FilterPermutes<T>(keep: T -> bool, a: seq<T>, b: seq<T>)
    requires multiset(a) == multiset(b)
    ensures multiset(Filter(keep, a)) == multiset(Filter(keep, b))
  {
    SameLength(a, b);
    if a != [] {
      var j := MatchLast(a, b);
      FilterPermutes(keep, a[..|a| - 1], Without(b, j));
      FilterWithout(keep, b, j);
    }
  }

  /** The positions of what `keep` accepts. */
  ghost function Places<T>(keep: T -> bool, s: seq<T>): set<nat> {
    set i: nat | i < |s| && keep(s[i])
  }

  lemma {:induction false} PlacesNext<T>(keep: T -> bool, s: seq<T>)
    requires s != []
    ensures |Places(keep, s)| == |Places(keep, s[..|s| - 1])| + if keep(s[|s| - 1]) then 1 else 0
  {
    var n := |s| - 1;
    var before := Places(keep, s[..n]);
    assert Places(keep, s) == if keep(s[n]) then before + {n} else before;
  }

  function Total<T>(f: T -> int, s: seq<T>): int {
    if s == [] then 0 else Total(f, s[..|s| - 1]) + f(s[|s| - 1])
  }

  lemma {:induction false} TotalWithout<T>(f: T -> int, s: seq<T>, k: nat)
    requires k < |s|
    ensures Total(f, s) == Total(f, Without(s, k)) + f(s[k])
  {
    WithoutSnoc(s, k);
    if k < |s| - 1 {
      TotalWithout(f, s[..|s| - 1], k);
    }
  }

  lemma {:induction false} TotalPermutes<T>(f: T -> int, a: seq<T>, b: seq<T>)
    requires multiset(a) == multiset(b)
    ensures Total(f, a) == Total(f, b)
  {
    SameLength(a, b);
    if a != [] {
      var j := MatchLast(a, b);
      TotalPermutes(f, a[..|a| - 1], Without(b, j));
      TotalWithout(f, b, j);
    }
  }

  lemma {:induction false} TwoPlaces<T>(s: seq<T>, i: nat, j: nat)
    requires i < |s| && j < |s| && i != j && s[i] == s[j]
    ensures multiset(s)[s[i]] >= 2
  {
    WithoutOne(s, i);
    assert Without(s, i)[if j < i then j else j - 1] == s[j];
    assert s[j] in multiset(Without(s, i));
  }
}
