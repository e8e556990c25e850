/**
 Reciprocal rank fusion of the occurrences of one URL: each provider contributes
 1 / (k + its best rank). Arithmetic is exact.
 */
module RankFusion {
  import opened Wrappers
  import opened JsText
  import opened Permutations

  /** An occurrence of a URL: None stands for a rank that is not a finite number. */
  datatype Occurrence = Occurrence(provider: string, sourceFamily: string, providerRank: Option<real>)

  /** A provider key with a positive rank. */
  datatype Entry<K> = Entry(key: K, rank: real)

  predicate Named(o: Occurrence) {
    o.provider != "" || o.sourceFamily != ""
  }

  /** The key of an occurrence; `anonymous` names those without a provider by their index. */
  function ProviderKey(anonymous: nat -> string, o: Occurrence, index: nat): string {
    Trim(if o.provider != "" then o.provider else if o.sourceFamily != "" then o.sourceFamily else anonymous(index))
  }

  function RankOf(o: Occurrence): (r: real)
    ensures r > 0.0
  {
    if o.providerRank.Some? && o.providerRank.value > 0.0 then o.providerRank.value else 1.0
  }

  function EntryOf(anonymous: nat -> string, o: Occurrence, index: nat): Entry<string> {
    Entry(ProviderKey(anonymous, o, index), RankOf(o))
  }

  function EntryFunction(anonymous: nat -> string): (Occurrence, nat) -> Entry<string> {
    (o: Occurrence, i: nat) => EntryOf(anonymous, o, i)
  }

  function Entries(anonymous: nat -> string, occurrences: seq<Occurrence>): (r: seq<Entry<string>>)
    ensures Ranked(r)
  {
    MapIndexed(EntryFunction(anonymous), occurrences)
  }

  predicate Ranked<K>(entries: seq<Entry<K>>) {
    forall i :: 0 <= i < |entries| ==> entries[i].rank > 0.0
  }

  /** The map the loop fills: the best rank of each key. */
  function Best<K(==)>(entries: seq<Entry<K>>): map<K, real> {
    if entries == [] then map[]
    else
      var n := |entries| - 1;
      var before := Best(entries[..n]);
      if entries[n].key !in before || entries[n].rank < before[entries[n].key]
      then before[entries[n].key := entries[n].rank] else before
  }

  /** The keys of that map in the order of insertion. */
  function Keys<K(==)>(entries: seq<Entry<K>>): (keys: seq<K>)
    ensures forall i :: 0 <= i < |keys| ==> keys[i] in Best(entries)
    ensures forall i, j :: 0 <= i < j < |keys| ==> keys[i] != keys[j]
  {
    if entries == [] then []
    else
      var n := |entries| - 1;
      var before := Keys(entries[..n]);
      if entries[n].key in before then before else before + [entries[n].key]
  }

  /** What a rank contributes. */
  type Share = real -> real

  function Sum<K(==)>(share: Share, best: map<K, real>, keys: seq<K>): real
    requires forall i :: 0 <= i < |keys| ==> keys[i] in best
  {
    if keys == [] then 0.0 else Sum(share, best, keys[..|keys| - 1]) + share(best[keys[|keys| - 1]])
  }

  function ReciprocalShare(k: real): Share
    requires k > 0.0
  {
    (rank: real) => if rank > 0.0 then 1.0 / (k + rank) else 0.0
  }

  datatype Fusion<K> = Fusion(rrfScore: real, providerRanks: map<K, real>, providerCount: nat)

  function FuseEntries<K(==)>(entries: seq<Entry<K>>, k: real): Fusion<K>
    requires k > 0.0
  {
    Fusion(Sum(ReciprocalShare(k), Best(entries), Keys(entries)), Best(entries), |Keys(entries)|)
  }

  function Fuse(anonymous: nat -> string, occurrences: seq<Occurrence>, k: real): Fusion<string>
    requires k > 0.0
  {
    FuseEntries(Entries(anonymous, occurrences), k)
  }

  lemma {:induction false} BestIsRanked<K(!new)>(entries: seq<Entry<K>>)
    requires Ranked(entries)
    ensures forall key :: key in Best(entries) ==> Best(entries)[key] > 0.0
  {
    if entries != [] {
      BestIsRanked(entries[..|entries| - 1]);
    }
  }

  /** The first loop: a map from key to best rank, with its keys in the order of insertion. */
  method FillBestRanks<T, K(==, !new)>(entry: (T, nat) -> Entry<K>, occurrences: seq<T>, ghost entries: seq<Entry<K>>)
    returns (best: map<K, real>, order: seq<K>)
    requires |entries| == |occurrences| && forall i :: 0 <= i < |entries| ==> entries[i] == entry(occurrences[i], i)
    ensures best == Best(entries) && order == Keys(entries)
  {
    best, order := map[], [];
    var i := 0;
    while i < |occurrences|
      invariant 0 <= i <= |occurrences|
      invariant best == Best(entries[..i]) && order == Keys(entries[..i])
    {
      KeysAreBest(entries[..i]);
      var next := entry(occurrences[i], i);
      assert entries[..i + 1][..i] == entries[..i] && entries[..i + 1][i] == next;
      if next.key !in best {
        order := order + [next.key];
      }
      if next.key !in best || next.rank < best[next.key] {
        best := best[next.key := next.rank];
      }
      i := i + 1;
    }
    assert entries[..i] == entries;
  }

  /** The second loop: the sum over the values of the map. */
  method AddShares<K(==)>(share: Share, best: map<K, real>, order: seq<K>) returns (score: real)
    requires forall i :: 0 <= i < |order| ==> order[i] in best
    ensures score == Sum(share, best, order)
  {
    score := 0.0;
    var i := 0;
    while i < |order|
      invariant 0 <= i <= |order|
      invariant score == Sum(share, best, order[..i])
    {
      assert order[..i + 1][..i] == order[..i];
      score := score + share(best[order[i]]);
      i := i + 1;
    }
    assert order[..i] == order;
  }

  method ReciprocalRankFusion(anonymous: nat -> string, occurrences: seq<Occurrence>,
                              k: real) returns (r: Fusion<string>)
    requires k > 0.0
    ensures r == Fuse(anonymous, occurrences, k)
  {
    var best, order :=
      FillBestRanks(EntryFunction(anonymous), occurrences, Entries(anonymous, occurrences));
    var score := AddShares(ReciprocalShare(k), best, order);
    r := Fusion(score, best, |order|);
  }

  // ---------------------------------------------------------------------------
  // Shares
  // ---------------------------------------------------------------------------

  /** Better ranks contribute more, and every positive rank something between 0 and `cap`. */
  ghost predicate IsShare(share: Share, cap: real) {
    && (forall rank :: rank > 0.0 ==> 0.0 < share(rank) < cap)
    && (forall a, b :: 0.0 < a <= b ==> share(b) <= share(a))
  }

  lemma {:induction false} Positive(p: real, d: real)
    requires p * d > 0.0 && d > 0.0
    ensures p > 0.0
  {
  }

  lemma {:induction false} Quotients(d: real, e: real)
    requires 0.0 < d < e
    ensures 0.0 < 1.0 / e < 1.0 / d
  {
    var p, q := 1.0 / d, 1.0 / e;
    assert p * d == 1.0 && q * e == 1.0;
    Positive(q, e);
    assert q * (e - d) > 0.0;
    assert (p - q) * d == q * (e - d);
    Positive(p - q, d);
  }

  lemma {:induction false} ReciprocalIsShare(k: real)
    requires k > 0.0
    ensures IsShare(ReciprocalShare(k), 1.0 / k)
  {
    var share := ReciprocalShare(k);
    forall rank | rank > 0.0 ensures 0.0 < share(rank) < 1.0 / k {
      Quotients(k, k + rank);
    }
    forall a, b | 0.0 < a <= b ensures share(b) <= share(a) {
      if a < b {
        Quotients(k + a, k + b);
      }
    }
  }

  function Multiple(n: nat, cap: real): real {
    if n == 0 then 0.0 else Multiple(n - 1, cap) + cap
  }

  lemma {:induction false} AddQuotients(a: real, b: real, k: real)
    requires k > 0.0
    ensures a / k + b / k == (a + b) / k
  {
  }

  lemma {:induction false} MultipleIsQuotient(n: nat, k: real)
    requires k > 0.0
    ensures Multiple(n, 1.0 / k) == (n as real) / k
  {
    if n > 0 {
      MultipleIsQuotient(n - 1, k);
      AddQuotients((n - 1) as real, 1.0, k);
    }
  }

  lemma {:induction false} SumIsBounded<K>(share: Share, best: map<K, real>, keys: seq<K>, cap: real)
    requires IsShare(share, cap)
    requires forall i :: 0 <= i < |keys| ==> keys[i] in best && best[keys[i]] > 0.0
    ensures keys == [] ==> Sum(share, best, keys) == 0.0
    ensures keys != [] ==> 0.0 < Sum(share, best, keys) < Multiple(|keys|, cap)
  {
    if keys != [] {
      var n := |keys| - 1;
      SumIsBounded(share, best, keys[..n], cap);
      assert 0.0 < share(best[keys[n]]) < cap;
    }
  }

  lemma {:induction false} KeysAreBest<K(!new)>(entries: seq<Entry<K>>)
    ensures forall key :: key in Best(entries) ==> key in Keys(entries)
    ensures entries != [] ==> Keys(entries) != []
  {
    if entries != [] {
      KeysAreBest(entries[..|entries| - 1]);
    }
  }

  lemma {:induction false} SharesAreBounded<K(!new)>(share: Share, entries: seq<Entry<K>>, cap: real)
    requires IsShare(share, cap) && entries != [] && Ranked(entries)
    ensures |Keys(entries)| > 0 && 0.0 < Sum(share, Best(entries), Keys(entries)) < Multiple(|Keys(entries)|, cap)
  {
    KeysAreBest(entries);
    BestIsRanked(entries);
    SumIsBounded(share, Best(entries), Keys(entries), cap);
  }

  lemma {:induction false} EntriesAreBounded<K(!new)>(entries: seq<Entry<K>>, k: real)
    requires k > 0.0 && entries != [] && Ranked(entries)
    ensures var f := FuseEntries(entries, k);
      f.providerCount > 0 && 0.0 < f.rrfScore < (f.providerCount as real) / k
  {
    ReciprocalIsShare(k);
    SharesAreBounded(ReciprocalShare(k), entries, 1.0 / k);
    MultipleIsQuotient(|Keys(entries)|, k);
  }

  /** With any occurrence the score lies strictly between 0 and the number of providers over k. */
  lemma {:induction false} FusionIsBounded(anonymous: nat -> string, occurrences: seq<Occurrence>, k: real)
    requires k > 0.0 && occurrences != []
    ensures var f := Fuse(anonymous, occurrences, k);
      f.providerCount > 0 && 0.0 < f.rrfScore < (f.providerCount as real) / k
  {
    EntriesAreBounded(Entries(anonymous, occurrences), k);
  }

  lemma {:induction false} SumImproves<K>(share: Share, best: map<K, real>, better: map<K, real>, keys: seq<K>,
                                          cap: real)
    requires IsShare(share, cap)
    requires forall i :: 0 <= i < |keys| ==> keys[i] in best && keys[i] in better && 0.0 < better[keys[i]] <= best[keys[i]]
    ensures Sum(share, best, keys) <= Sum(share, better, keys)
  {
    if keys != [] {
      SumImproves(share, best, better, keys[..|keys| - 1], cap);
    }
  }

  lemma {:induction false} AddingImproves<K(!new)>(share: Share, entries: seq<Entry<K>>, entry: Entry<K>, cap: real)
    requires IsShare(share, cap) && Ranked(entries) && entry.rank > 0.0
    ensures Sum(share, Best(entries), Keys(entries)) <= Sum(share, Best(entries + [entry]), Keys(entries + [entry]))
  {
    var all := entries + [entry];
    assert all[..|entries|] == entries;
    BestIsRanked(entries);
    SumImproves(share, Best(entries), Best(all), Keys(entries), cap);
    if Keys(all) != Keys(entries) {
      assert Keys(all)[..|Keys(entries)|] == Keys(entries);
      assert share(Best(all)[entry.key]) > 0.0 by { BestIsRanked(all); }
    }
  }

  lemma {:induction false} AddingEntryNeverLowers<K(!new)>(entries: seq<Entry<K>>, entry: Entry<K>, k: real)
    requires k > 0.0 && Ranked(entries) && entry.rank > 0.0
    ensures FuseEntries(entries, k).rrfScore <= FuseEntries(entries + [entry], k).rrfScore
  {
    ReciprocalIsShare(k);
    AddingImproves(ReciprocalShare(k), entries, entry, 1.0 / k);
  }

  /** One more occurrence never lowers the score. */
  lemma {:induction false} AddingNeverLowers(anonymous: nat -> string, occurrences: seq<Occurrence>, o: Occurrence, k: real)
    requires k > 0.0
    ensures Fuse(anonymous, occurrences, k).rrfScore <= Fuse(anonymous, occurrences + [o], k).rrfScore
  {
    var entry := EntryOf(anonymous, o, |occurrences|);
    MapIndexedSnoc(EntryFunction(anonymous), occurrences, o);
    AddingEntryNeverLowers(Entries(anonymous, occurrences), entry, k);
  }

  // ---------------------------------------------------------------------------
  // The order of the occurrences
  // ---------------------------------------------------------------------------

  /** `rank` is the least rank of the entries with this key. */
  ghost predicate IsBest<K>(entries: seq<Entry<K>>, key: K, rank: real) {
    && Entry(key, rank) in entries
    && (forall i :: 0 <= i < |entries| && entries[i].key == key ==> rank <= entries[i].rank)
  }

  lemma {:induction false} BestIsLeast<K>(entries: seq<Entry<K>>, key: K)
    ensures key in Best(entries) ==> IsBest(entries, key, Best(entries)[key])
    ensures key !in Best(entries) ==> forall i :: 0 <= i < |entries| ==> entries[i].key != key
  {
    if entries != [] {
      var n := |entries| - 1;
      BestIsLeast(entries[..n], key);
      assert entries == entries[..n] + [entries[n]];
      if entries[n].key == key {
        assert entries[n] == Entry(key, entries[n].rank);
      }
    }
  }

  lemma {:induction false} BestCarries<K>(a: seq<Entry<K>>, b: seq<Entry<K>>, key: K)
    requires multiset(a) == multiset(b)
    ensures key in Best(a) ==> key in Best(b) && Best(b)[key] <= Best(a)[key]
  {
    BestIsLeast(a, key);
    BestIsLeast(b, key);
    if key in Best(a) {
      var entry := Entry(key, Best(a)[key]);
      assert entry in multiset(b);
      var i :| 0 <= i < |b| && b[i] == entry;
      assert b[i].key == key;
    }
  }

  lemma {:induction false} BestIgnoresOrder<K(!new)>(a: seq<Entry<K>>, b: seq<Entry<K>>)
    requires multiset(a) == multiset(b)
    ensures Best(a) == Best(b)
  {
    forall key ensures key in Best(a) <==> key in Best(b)
      ensures key in Best(a) ==> Best(a)[key] == Best(b)[key]
    {
      BestCarries(a, b, key);
      BestCarries(b, a, key);
    }
  }

  lemma {:induction false} TakeOut<K>(share: Share, best: map<K, real>, keys: seq<K>, j: nat)
    requires j < |keys| && forall i :: 0 <= i < |keys| ==> keys[i] in best
    ensures forall i :: 0 <= i < |keys| - 1 ==> Without(keys, j)[i] in best
    ensures Sum(share, best, keys) == Sum(share, best, Without(keys, j)) + share(best[keys[j]])
  {
    var n := |keys| - 1;
    if j == n {
      assert Without(keys, j) == keys[..n];
    } else {
      TakeOut(share, best, keys[..n], j);
      assert Without(keys, j)[..n - 1] == Without(keys[..n], j);
      assert Without(keys, j)[n - 1] == keys[n];
    }
  }

  lemma {:induction false} SumIgnoresOrder<K>(share: Share, best: map<K, real>, a: seq<K>, b: seq<K>)
    requires (forall i :: 0 <= i < |a| ==> a[i] in best) && (forall i :: 0 <= i < |b| ==> b[i] in best)
    requires multiset(a) == multiset(b)
    ensures Sum(share, best, a) == Sum(share, best, b)
  {
    SameLength(a, b);
    if a != [] {
      var n := |a| - 1;
      var j := MatchLast(a, b);
      TakeOut(share, best, b, j);
      SumIgnoresOrder(share, best, a[..n], Without(b, j));
    }
  }

  lemma {:induction false} OccursOnce<K>(s: seq<K>, x: K)
    requires forall i, j :: 0 <= i < j < |s| ==> s[i] != s[j]
    ensures multiset(s)[x] == if x in s then 1 else 0
  {
    if s != [] {
      HeadAndTail(s);
      OccursOnce(s[1..], x);
    }
  }

  lemma {:induction false} DistinctAndSame<K(!new)>(a: seq<K>, b: seq<K>)
    requires forall i, j :: 0 <= i < j < |a| ==> a[i] != a[j]
    requires forall i, j :: 0 <= i < j < |b| ==> b[i] != b[j]
    requires forall x :: x in a <==> x in b
    ensures multiset(a) == multiset(b)
  {
    forall x ensures multiset(a)[x] == multiset(b)[x] {
      OccursOnce(a, x);
      OccursOnce(b, x);
    }
  }

  lemma {:induction false} EntriesIgnoreOrder<K(!new)>(a: seq<Entry<K>>, b: seq<Entry<K>>, k: real)
    requires k > 0.0 && multiset(a) == multiset(b)
    ensures FuseEntries(a, k) == FuseEntries(b, k)
  {
    BestIgnoresOrder(a, b);
    KeysAreBest(a);
    KeysAreBest(b);
    DistinctAndSame(Keys(a), Keys(b));
    SameLength(Keys(a), Keys(b));
    SumIgnoresOrder(ReciprocalShare(k), Best(a), Keys(a), Keys(b));
  }

  lemma {:induction false} NamedEntries(anonymous: nat -> string, occurrences: seq<Occurrence>)
    requires forall i :: 0 <= i < |occurrences| ==> Named(occurrences[i])
    ensures Entries(anonymous, occurrences) == Map((o: Occurrence) => EntryOf(anonymous, o, 0), occurrences)
  {
  }

  /** Over named providers the fusion does not depend on the order of the occurrences. */
  lemma {:induction false} FusionIgnoresOrder(anonymous: nat -> string, a: seq<Occurrence>, b: seq<Occurrence>, k: real)
    requires k > 0.0 && multiset(a) == multiset(b) && forall i :: 0 <= i < |a| ==> Named(a[i])
    ensures Fuse(anonymous, a, k) == Fuse(anonymous, b, k)
  {
    var entry := (o: Occurrence) => EntryOf(anonymous, o, 0);
    forall i | 0 <= i < |b| ensures Named(b[i]) {
      var j := SameElement(b, a, i);
    }
    NamedEntries(anonymous, a);
    NamedEntries(anonymous, b);
    MapPermutes(entry, a, b);
    EntriesIgnoreOrder(Map(entry, a), Map(entry, b), k);
  }
}
