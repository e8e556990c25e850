/**
 Normalised discounted cumulative gain. What a relevance is worth at a position is a
 parameter: any gain over any discount that falls with the position, as (2^r - 1) over
 log2(i + 2) is. Arithmetic is exact.
 */
module Evaluation {
  import opened Permutations

  datatype RankedItem = RankedItem(id: string, relevance: real)

  /** The summand of a relevance at a position. */
  type Worth = (real, nat) -> real

  /** More relevance is worth more, and a difference in relevance is worth more further up. */
  ghost predicate IsWorth(w: Worth) {
    && (forall r, i: nat :: r >= 0.0 ==> w(r, i) >= 0.0)
    && (forall a, b, i: nat :: a < b ==> w(a, i) < w(b, i))
    && (forall a, b, i: nat, j: nat :: a < b && i < j ==> w(b, j) - w(a, j) < w(b, i) - w(a, i))
  }

  lemma {:induction false} PositiveFactor(p: real, d: real)
    requires p * d > 0.0 && d > 0.0
    ensures p > 0.0
  {
  }

  /** A positive number divided by less is more. */
  lemma {:induction false} QuotientFalls(x: real, d: real, e: real)
    requires x > 0.0 && 0.0 < d < e
    ensures 0.0 < x / e < x / d
  {
    var p, q := x / d, x / e;
    assert p * d == x && q * e == x;
    PositiveFactor(q, e);
    assert q * (e - d) > 0.0;
    assert (p - q) * d == q * (e - d);
    PositiveFactor(p - q, d);
  }

  lemma {:induction false} QuotientsDiffer(x: real, y: real, d: real)
    requires x < y && d > 0.0
    ensures y / d - x / d == (y - x) / d > 0.0
  {
    var p := (y - x) / d;
    assert p * d == y - x;
    PositiveFactor(p, d);
  }

  ghost predicate IsQuotient(w: Worth, gain: real -> real, discount: nat -> real) {
    forall r, i: nat :: discount(i) > 0.0 ==> w(r, i) == gain(r) / discount(i)
  }

  /** A growing gain divided by a growing discount of the position satisfies the assumption. */
  lemma {:induction false} GainOverDiscountIsWorth(gain: real -> real, discount: nat -> real, w: Worth)
    requires forall r :: r >= 0.0 ==> gain(r) >= 0.0
    requires forall a, b :: a < b ==> gain(a) < gain(b)
    requires forall i: nat :: discount(i) > 0.0
    requires forall i: nat, j: nat :: i < j ==> discount(i) < discount(j)
    requires IsQuotient(w, gain, discount)
    ensures IsWorth(w)
  {
    forall r, i: nat | r >= 0.0 ensures w(r, i) >= 0.0 {
      assert discount(i) > 0.0 && gain(r) >= 0.0;
    }
    forall a, b, i: nat | a < b ensures w(a, i) < w(b, i) {
      assert discount(i) > 0.0;
      QuotientsDiffer(gain(a), gain(b), discount(i));
    }
    forall a, b, i: nat, j: nat | a < b && i < j ensures w(b, j) - w(a, j) < w(b, i) - w(a, i) {
      assert discount(i) > 0.0 && discount(j) > 0.0;
      QuotientsDiffer(gain(a), gain(b), discount(i));
      QuotientsDiffer(gain(a), gain(b), discount(j));
      QuotientFalls(gain(b) - gain(a), discount(i), discount(j));
    }
  }

  /** The sum of a list whose first item stands at position `i`. */
  function DcgFrom(w: Worth, values: seq<real>, i: nat): real {
    if values == [] then 0.0 else w(values[0], i) + DcgFrom(w, values[1..], i + 1)
  }

  function Dcg(w: Worth, values: seq<real>): real {
    DcgFrom(w, values, 0)
  }

  predicate Descending(s: seq<real>) {
    forall i, k :: 0 <= i < k < |s| ==> s[i] >= s[k]
  }

  predicate NonNegative(s: seq<real>) {
    forall i :: 0 <= i < |s| ==> s[i] >= 0.0
  }

  function Relevances(items: seq<RankedItem>): seq<real> {
    Map((item: RankedItem) => item.relevance, items)
  }

  function Take<T>(s: seq<T>, n: nat): seq<T> {
    if n < |s| then s[..n] else s
  }

  function Limit(k: real): (r: nat)
    ensures r >= 1
  {
    if k.Floor < 1 then 1 else k.Floor
  }

  // ---------------------------------------------------------------------------
  // The sorted copy
  // ---------------------------------------------------------------------------

  function InsertDescending(x: RankedItem, s: seq<RankedItem>): seq<RankedItem> {
    if s == [] || x.relevance >= s[0].relevance then [x] + s else [s[0]] + InsertDescending(x, s[1..])
  }

  /** A stable sort by decreasing relevance. */
  function SortDescending(s: seq<RankedItem>): seq<RankedItem> {
    if s == [] then [] else InsertDescending(s[0], SortDescending(s[1..]))
  }

  predicate SortedItems(s: seq<RankedItem>) {
    forall i, k :: 0 <= i < k < |s| ==> s[i].relevance >= s[k].relevance
  }

  lemma {:induction false} InsertKeepsItems(x: RankedItem, s: seq<RankedItem>)
    ensures multiset(InsertDescending(x, s)) == multiset{x} + multiset(s)
  {
    if s != [] && x.relevance < s[0].relevance {
      InsertKeepsItems(x, s[1..]);
      HeadAndTail(s);
    }
  }

  lemma {:induction false} InsertSorts(x: RankedItem, s: seq<RankedItem>)
    requires SortedItems(s)
    ensures SortedItems(InsertDescending(x, s))
  {
    if s != [] && x.relevance < s[0].relevance {
      InsertSorts(x, s[1..]);
      InsertKeepsItems(x, s[1..]);
      var r := InsertDescending(x, s[1..]);
      forall k | 0 <= k < |r| ensures s[0].relevance >= r[k].relevance {
        assert r[k] in multiset(r);
        if r[k] != x { assert r[k] in s[1..]; }
      }
    }
  }

  lemma {:induction false} SortSorts(s: seq<RankedItem>)
    ensures SortedItems(SortDescending(s)) && multiset(SortDescending(s)) == multiset(s)
  {
    if s != [] {
      SortSorts(s[1..]);
      InsertSorts(s[0], SortDescending(s[1..]));
      InsertKeepsItems(s[0], SortDescending(s[1..]));
      HeadAndTail(s);
    }
  }

  lemma {:induction false} SameItemsSameRelevances(a: seq<RankedItem>, b: seq<RankedItem>)
    requires multiset(a) == multiset(b)
    ensures multiset(Relevances(a)) == multiset(Relevances(b))
  {
    MapPermutes((item: RankedItem) => item.relevance, a, b);
  }

  // ---------------------------------------------------------------------------
  // Rearrangement
  // ---------------------------------------------------------------------------

  lemma {:induction false} DcgUpdate(w: Worth, values: seq<real>, i: nat, k: nat, x: real)
    requires k < |values|
    ensures DcgFrom(w, values[k := x], i) == DcgFrom(w, values, i) - w(values[k], i + k) + w(x, i + k)
  {
    if k == 0 {
      assert values[0 := x][1..] == values[1..];
    } else {
      assert values[k := x][1..] == values[1..][k - 1 := x];
      DcgUpdate(w, values[1..], i + 1, k - 1, x);
    }
  }

  /** Moving a larger value to the front gains. */
  lemma {:induction false} SwapGains(w: Worth, values: seq<real>, i: nat, n: nat, j: nat)
    requires IsWorth(w) && 0 < n <= |values| && 0 < j < |values| && values[0] < values[j]
    ensures var swapped := values[0 := values[j]][j := values[0]];
      DcgFrom(w, values[..n], i) < DcgFrom(w, swapped[..n], i)
  {
    var a, b := values[0], values[j];
    var raised := values[0 := b];
    DcgUpdate(w, values[..n], i, 0, b);
    assert raised[..n] == values[..n][0 := b];
    if j < n {
      DcgUpdate(w, raised[..n], i, j, a);
      assert raised[j := a][..n] == raised[..n][j := a];
      assert w(b, i + j) - w(a, i + j) < w(b, i) - w(a, i);
    } else {
      assert raised[j := a][..n] == raised[..n];
      assert w(a, i) < w(b, i);
    }
  }

  lemma {:induction false} SwapKeepsValues(values: seq<real>, j: nat)
    requires 0 < j < |values|
    ensures multiset(values[0 := values[j]][j := values[0]]) == multiset(values)
  {
  }

  /** The values with the largest one, `best`, moved to the front. */
  function BestFirst(values: seq<real>, best: real): (r: seq<real>)
    requires best in values
    ensures |r| == |values| && r[0] == best
  {
    if values[0] == best then values
    else var j := FirstIndex(values, best); values[0 := values[j]][j := values[0]]
  }

  function FirstIndex(s: seq<real>, x: real): (k: nat)
    requires x in s
    ensures k < |s| && s[k] == x
  {
    if s[0] == x then 0 else 1 + FirstIndex(s[1..], x)
  }

  lemma {:induction false} BestFirstGains(w: Worth, values: seq<real>, best: real, i: nat, n: nat)
    requires IsWorth(w) && best in values && (forall k :: 0 <= k < |values| ==> values[k] <= best)
    requires 0 < n <= |values|
    ensures multiset(BestFirst(values, best)) == multiset(values)
    ensures DcgFrom(w, values[..n], i) <= DcgFrom(w, BestFirst(values, best)[..n], i)
    ensures values[0] != best ==> DcgFrom(w, values[..n], i) < DcgFrom(w, BestFirst(values, best)[..n], i)
  {
    if values[0] != best {
      SwapGains(w, values, i, n, FirstIndex(values, best));
      SwapKeepsValues(values, FirstIndex(values, best));
    }
  }

  lemma {:induction false} SortedHeads(values: seq<real>, sorted: seq<real>)
    requires Descending(sorted) && multiset(values) == multiset(sorted) && values != []
    ensures |values| == |sorted| && sorted[0] in values
    ensures forall k :: 0 <= k < |values| ==> values[k] <= sorted[0]
  {
    assert |multiset(values)| == |multiset(sorted)|;
    assert sorted[0] in multiset(values);
    forall k | 0 <= k < |values| ensures values[k] <= sorted[0] {
      assert values[k] in multiset(sorted);
    }
  }

  lemma {:induction false} SameHeadSum(w: Worth, s: seq<real>, i: nat, n: nat)
    requires 0 < n <= |s|
    ensures s[..n] == [s[0]] + s[1..][..n - 1]
    ensures DcgFrom(w, s[..n], i) == w(s[0], i) + DcgFrom(w, s[1..][..n - 1], i + 1)
  {
    assert s[..n][1..] == s[1..][..n - 1];
  }

  /** `better` is `values` with the head of `sorted` in front; below the head `sorted` is at least as good. */
  lemma {:induction false} CombineHead(w: Worth, values: seq<real>, better: seq<real>, sorted: seq<real>, i: nat, n: nat)
    requires 0 < n <= |values| == |better| == |sorted| && better[0] == sorted[0]
    requires values[0] == sorted[0] ==> better == values
    requires DcgFrom(w, values[..n], i) <= DcgFrom(w, better[..n], i)
    requires values[0] != sorted[0] ==> DcgFrom(w, values[..n], i) < DcgFrom(w, better[..n], i)
    requires DcgFrom(w, better[1..][..n - 1], i + 1) <= DcgFrom(w, sorted[1..][..n - 1], i + 1)
    requires DcgFrom(w, better[1..][..n - 1], i + 1) == DcgFrom(w, sorted[1..][..n - 1], i + 1) ==>
      better[1..][..n - 1] == sorted[1..][..n - 1]
    ensures DcgFrom(w, values[..n], i) <= DcgFrom(w, sorted[..n], i)
    ensures DcgFrom(w, values[..n], i) == DcgFrom(w, sorted[..n], i) ==> values[..n] == sorted[..n]
  {
    SameHeadSum(w, better, i, n);
    SameHeadSum(w, sorted, i, n);
  }

  lemma {:induction false} DescendingTail(s: seq<real>)
    requires Descending(s) && s != []
    ensures Descending(s[1..])
  {
  }

  /** The first step of the rearrangement: the largest value in front, and what is left to compare. */
  lemma {:induction false} BestToFront(w: Worth, values: seq<real>, sorted: seq<real>, i: nat, n: nat) returns (better: seq<real>)
    requires IsWorth(w) && Descending(sorted) && multiset(values) == multiset(sorted) && 0 < n <= |values|
    ensures |values| == |better| == |sorted| && better[0] == sorted[0]
    ensures values[0] == sorted[0] ==> better == values
    ensures DcgFrom(w, values[..n], i) <= DcgFrom(w, better[..n], i)
    ensures values[0] != sorted[0] ==> DcgFrom(w, values[..n], i) < DcgFrom(w, better[..n], i)
    ensures Descending(sorted[1..]) && multiset(better[1..]) == multiset(sorted[1..])
  {
    SortedHeads(values, sorted);
    better := BestFirst(values, sorted[0]);
    BestFirstGains(w, values, sorted[0], i, n);
    SameTails(better, sorted);
    DescendingTail(sorted);
  }

  /** No order of the same values gains more in its first n than the sorted one, or as much unless it agrees. */
  lemma {:induction false} SortedIsBest(w: Worth, values: seq<real>, sorted: seq<real>, i: nat, n: nat)
    requires IsWorth(w) && Descending(sorted) && multiset(values) == multiset(sorted) && n <= |values|
    ensures |values| == |sorted|
    ensures DcgFrom(w, values[..n], i) <= DcgFrom(w, sorted[..n], i)
    ensures DcgFrom(w, values[..n], i) == DcgFrom(w, sorted[..n], i) ==> values[..n] == sorted[..n]
    decreases n
  {
    SameLength(values, sorted);
    if n > 0 {
      var better := BestToFront(w, values, sorted, i, n);
      SortedIsBest(w, better[1..], sorted[1..], i + 1, n - 1);
      CombineHead(w, values, better, sorted, i, n);
    }
  }

  // ---------------------------------------------------------------------------
  // The metric
  // ---------------------------------------------------------------------------

  function Ideal(ranked: seq<RankedItem>, limit: nat): seq<real> {
    Relevances(Take(SortDescending(ranked), limit))
  }

  function Actual(ranked: seq<RankedItem>, limit: nat): seq<real> {
    Relevances(Take(ranked, limit))
  }

  function NdcgAtK(w: Worth, ranked: seq<RankedItem>, k: real): real {
    var idealDcg := Dcg(w, Ideal(ranked, Limit(k)));
    if idealDcg != 0.0 then Dcg(w, Actual(ranked, Limit(k))) / idealDcg else 0.0
  }

  lemma {:induction false} DcgIsNotNegative(w: Worth, values: seq<real>, i: nat)
    requires IsWorth(w) && NonNegative(values)
    ensures DcgFrom(w, values, i) >= 0.0
  {
    if values != [] {
      DcgIsNotNegative(w, values[1..], i + 1);
      assert values[0] >= 0.0;
    }
  }

  lemma {:induction false} RatioInRange(a: real, b: real)
    requires 0.0 <= a <= b && b > 0.0
    ensures 0.0 <= a / b <= 1.0 && (a / b == 1.0 <==> a == b)
  {
    assert (a / b) * b == a;
  }

  lemma {:induction false} IdealIsSorted(ranked: seq<RankedItem>)
    ensures var all := Relevances(SortDescending(ranked));
      Descending(all) && multiset(all) == multiset(Relevances(ranked)) && |all| == |ranked|
  {
    SortSorts(ranked);
    SameItemsSameRelevances(SortDescending(ranked), ranked);
    assert |multiset(SortDescending(ranked))| == |multiset(ranked)|;
  }

  lemma {:induction false} TakenRelevances(items: seq<RankedItem>, n: nat)
    ensures Relevances(Take(items, n)) == Relevances(items)[..if n < |items| then n else |items|]
  {
  }

  /** For every ranking with non-negative relevances and every k, nDCG lies between 0 and 1. */
  lemma {:induction false} NdcgIsNormalised(w: Worth, ranked: seq<RankedItem>, k: real)
    requires IsWorth(w) && NonNegative(Relevances(ranked))
    ensures 0.0 <= NdcgAtK(w, ranked, k) <= 1.0
  {
    var limit := Limit(k);
    var ideal, actual := Ideal(ranked, limit), Actual(ranked, limit);
    CompareIdeal(w, ranked, limit);
    if Dcg(w, ideal) != 0.0 {
      RatioInRange(Dcg(w, actual), Dcg(w, ideal));
    }
  }

  lemma {:induction false} CompareIdeal(w: Worth, ranked: seq<RankedItem>, limit: nat)
    requires IsWorth(w) && NonNegative(Relevances(ranked))
    ensures 0.0 <= Dcg(w, Actual(ranked, limit)) <= Dcg(w, Ideal(ranked, limit))
    ensures Dcg(w, Actual(ranked, limit)) == Dcg(w, Ideal(ranked, limit)) <==> Actual(ranked, limit) == Ideal(ranked, limit)
  {
    var n := if limit < |ranked| then limit else |ranked|;
    var values, sorted := Relevances(ranked), Relevances(SortDescending(ranked));
    IdealIsSorted(ranked);
    TakenRelevances(ranked, limit);
    TakenRelevances(SortDescending(ranked), limit);
    SortedIsBest(w, values, sorted, 0, n);
    DcgIsNotNegative(w, values[..n], 0);
  }

  /** nDCG is 1 exactly when the first k are already the best k in order, and something is relevant. */
  lemma {:induction false} NdcgIsOneIff(w: Worth, ranked: seq<RankedItem>, k: real)
    requires IsWorth(w) && NonNegative(Relevances(ranked))
    ensures NdcgAtK(w, ranked, k) == 1.0 <==>
      Actual(ranked, Limit(k)) == Ideal(ranked, Limit(k)) && Dcg(w, Ideal(ranked, Limit(k))) > 0.0
  {
    var limit := Limit(k);
    CompareIdeal(w, ranked, limit);
    if Dcg(w, Ideal(ranked, limit)) != 0.0 {
      RatioInRange(Dcg(w, Actual(ranked, limit)), Dcg(w, Ideal(ranked, limit)));
    }
  }

  lemma {:induction false} SortedIsUnique(a: seq<real>, b: seq<real>)
    requires Descending(a) && Descending(b) && multiset(a) == multiset(b)
    ensures a == b
  {
    assert |multiset(a)| == |multiset(b)|;
    if a != [] {
      SortedHeads(a, b);
      SortedHeads(b, a);
      SameTails(a, b);
      SortedIsUnique(a[1..], b[1..]);
    }
  }

  /** The ideal gain depends on the ranked items alone, not on their order. */
  lemma {:induction false} IdealIgnoresOrder(ranked: seq<RankedItem>, other: seq<RankedItem>, limit: nat)
    requires multiset(ranked) == multiset(other)
    ensures Ideal(ranked, limit) == Ideal(other, limit)
  {
    IdealIsSorted(ranked);
    IdealIsSorted(other);
    SameItemsSameRelevances(ranked, other);
    SortedIsUnique(Relevances(SortDescending(ranked)), Relevances(SortDescending(other)));
    TakenRelevances(SortDescending(ranked), limit);
    TakenRelevances(SortDescending(other), limit);
    assert |multiset(ranked)| == |multiset(other)|;
  }
}
