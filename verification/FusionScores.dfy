/**
 The score of a fusion told on the occurrences themselves: which of them counts for its
 provider and what it adds.
 */
module FusionScores {
  import opened Wrappers
  import opened JsText
  import opened Permutations
  import opened RankFusion

  // ---------------------------------------------------------------------------
  // The entries that count
  // ---------------------------------------------------------------------------

  /** No entry of the same key has a lesser rank, and none before it the same one. */
  ghost predicate IsLeast<K>(entries: seq<Entry<K>>, i: nat)
    requires i < |entries|
  {
    forall j :: 0 <= j < |entries| && entries[j].key == entries[i].key ==>
      entries[i].rank < entries[j].rank || (entries[i].rank == entries[j].rank && i <= j)
  }

  /** The keys of the least among the first `n` entries. */
  ghost function LeastKeys<K>(entries: seq<Entry<K>>, n: nat): seq<K>
    requires n <= |entries|
  {
    if n == 0 then [] else LeastKeys(entries, n - 1) + if IsLeast(entries, n - 1) then [entries[n - 1].key] else []
  }

  /** What these add. */
  ghost function LeastSum<K>(share: Share, entries: seq<Entry<K>>, n: nat): real
    requires n <= |entries|
  {
    if n == 0 then 0.0
    else LeastSum(share, entries, n - 1) + if IsLeast(entries, n - 1) then share(entries[n - 1].rank) else 0.0
  }

  lemma {:induction false} LeastExists<K>(entries: seq<Entry<K>>, n: nat, i: nat) returns (j: nat)
    requires i < n <= |entries|
    ensures j < n && entries[j].key == entries[i].key
    ensures forall l :: 0 <= l < n && entries[l].key == entries[i].key ==>
      entries[j].rank < entries[l].rank || (entries[j].rank == entries[l].rank && j <= l)
  {
    if i == n - 1 {
      if l :| 0 <= l < n - 1 && entries[l].key == entries[i].key {
        j := LeastExists(entries, n - 1, l);
        if entries[n - 1].rank < entries[j].rank { j := n - 1; }
      } else {
        j := i;
      }
    } else {
      j := LeastExists(entries, n - 1, i);
      if entries[n - 1].key == entries[i].key && entries[n - 1].rank < entries[j].rank { j := n - 1; }
    }
  }

  lemma {:induction false} LeastKeysAre<K>(entries: seq<Entry<K>>, n: nat, key: K)
    requires n <= |entries|
    ensures key in LeastKeys(entries, n) <==> exists i :: 0 <= i < n && entries[i].key == key && IsLeast(entries, i)
  {
    if n > 0 {
      LeastKeysAre(entries, n - 1, key);
    }
  }

  ghost predicate Apart<K>(keys: seq<K>) {
    forall i, j :: 0 <= i < j < |keys| ==> keys[i] != keys[j]
  }

  lemma {:induction false} LeastIsOne<K>(entries: seq<Entry<K>>, i: nat, j: nat)
    requires i < j < |entries| && entries[i].key == entries[j].key
    ensures !(IsLeast(entries, i) && IsLeast(entries, j))
  {
  }

  lemma {:induction false} LeastKeysDiffer<K(!new)>(entries: seq<Entry<K>>, n: nat)
    requires n <= |entries|
    ensures Apart(LeastKeys(entries, n))
  {
    if n > 0 {
      var keys := LeastKeys(entries, n - 1);
      LeastKeysDiffer(entries, n - 1);
      if IsLeast(entries, n - 1) {
        var key := entries[n - 1].key;
        LeastKeysAre(entries, n - 1, key);
        forall m: nat | m < n - 1 && entries[m].key == key ensures !IsLeast(entries, m) {
          LeastIsOne(entries, m, n - 1);
        }
        assert key !in keys;
        assert LeastKeys(entries, n) == keys + [key];
      } else {
        assert LeastKeys(entries, n) == keys;
      }
    }
  }

  /** The least of a key carries the best rank of that key. */
  lemma {:induction false} LeastIsBest<K>(entries: seq<Entry<K>>, i: nat)
    requires i < |entries| && IsLeast(entries, i)
    ensures entries[i].key in Best(entries) && Best(entries)[entries[i].key] == entries[i].rank
  {
    var key := entries[i].key;
    BestIsLeast(entries, key);
    var j :| 0 <= j < |entries| && entries[j] == Entry(key, Best(entries)[key]);
    assert entries[j].key == key;
  }

  lemma {:induction false} SumAppends<K>(share: Share, best: map<K, real>, keys: seq<K>, key: K)
    requires key in best && forall i :: 0 <= i < |keys| ==> keys[i] in best
    ensures Sum(share, best, keys + [key]) == Sum(share, best, keys) + share(best[key])
  {
    assert (keys + [key])[..|keys|] == keys;
  }

  lemma {:induction false} LeastSumIsSum<K>(share: Share, entries: seq<Entry<K>>, n: nat)
    requires n <= |entries|
    ensures var keys := LeastKeys(entries, n); forall i :: 0 <= i < |keys| ==> keys[i] in Best(entries)
    ensures Sum(share, Best(entries), LeastKeys(entries, n)) == LeastSum(share, entries, n)
  {
    if n > 0 {
      LeastSumIsSum(share, entries, n - 1);
      if IsLeast(entries, n - 1) {
        LeastIsBest(entries, n - 1);
        SumAppends(share, Best(entries), LeastKeys(entries, n - 1), entries[n - 1].key);
        assert LeastKeys(entries, n) == LeastKeys(entries, n - 1) + [entries[n - 1].key];
      } else {
        assert LeastKeys(entries, n) == LeastKeys(entries, n - 1);
      }
    }
  }

  lemma {:induction false} SameKeys<K(!new)>(entries: seq<Entry<K>>)
    ensures multiset(LeastKeys(entries, |entries|)) == multiset(Keys(entries))
  {
    var keys := LeastKeys(entries, |entries|);
    KeysAreBest(entries);
    LeastKeysDiffer(entries, |entries|);
    forall key ensures key in keys <==> key in Keys(entries) {
      LeastKeysAre(entries, |entries|, key);
      BestIsLeast(entries, key);
      if key in Best(entries) {
        var i :| 0 <= i < |entries| && entries[i] == Entry(key, Best(entries)[key]);
        var j := LeastExists(entries, |entries|, i);
        assert IsLeast(entries, j);
      }
      if key in keys {
        var i :| 0 <= i < |entries| && entries[i].key == key && IsLeast(entries, i);
        LeastIsBest(entries, i);
      }
    }
    DistinctAndSame(keys, Keys(entries));
  }

  /** The sum over the map is the sum over the entries that count. */
  lemma {:induction false} SumIsLeastSum<K(!new)>(share: Share, entries: seq<Entry<K>>)
    ensures Sum(share, Best(entries), Keys(entries)) == LeastSum(share, entries, |entries|)
    ensures |Keys(entries)| == |LeastKeys(entries, |entries|)|
  {
    SameKeys(entries);
    SameLength(LeastKeys(entries, |entries|), Keys(entries));
    LeastSumIsSum(share, entries, |entries|);
    SumIgnoresOrder(share, Best(entries), LeastKeys(entries, |entries|), Keys(entries));
  }

  // ---------------------------------------------------------------------------
  // The occurrences that count
  // ---------------------------------------------------------------------------

  /** The provider of an occurrence: its own name, else that of its family, else one made of its position. */
  function ProviderOf(anonymous: nat -> string, occurrences: seq<Occurrence>, i: nat): string
    requires i < |occurrences|
  {
    if occurrences[i].provider != "" then Trim(occurrences[i].provider)
    else if occurrences[i].sourceFamily != "" then Trim(occurrences[i].sourceFamily)
    else Trim(anonymous(i))
  }

  /** A positive rank counts as it is, a rank that is not positive or no number counts as 1. */
  function CountedRank(o: Occurrence): real {
    match o.providerRank
    case None => 1.0
    case Some(rank) => if rank <= 0.0 then 1.0 else rank
  }

  /** Each occurrence with its provider and its counted rank. */
  function Occurring(anonymous: nat -> string, occurrences: seq<Occurrence>): (r: seq<Entry<string>>)
    ensures Ranked(r) && |r| == |occurrences|
  {
    seq(|occurrences|, i requires 0 <= i < |occurrences| =>
      Entry(ProviderOf(anonymous, occurrences, i), CountedRank(occurrences[i])))
  }

  lemma {:induction false} OccurringAreEntries(anonymous: nat -> string, occurrences: seq<Occurrence>)
    ensures Occurring(anonymous, occurrences) == Entries(anonymous, occurrences)
  {
  }

  /** What one rank adds. */
  function Reciprocal(k: real, rank: real): real
    requires k > 0.0 && rank > 0.0
  {
    1.0 / (k + rank)
  }

  /** The sum of 1 / (k + rank) over the least among the first `n` entries. */
  ghost function DecidingSum<K>(entries: seq<Entry<K>>, k: real, n: nat): real
    requires k > 0.0 && Ranked(entries) && n <= |entries|
  {
    if n == 0 then 0.0
    else DecidingSum(entries, k, n - 1) + if IsLeast(entries, n - 1) then Reciprocal(k, entries[n - 1].rank) else 0.0
  }

  lemma {:induction false} DecidingSumIs<K>(entries: seq<Entry<K>>, k: real, n: nat)
    requires k > 0.0 && Ranked(entries) && n <= |entries|
    ensures DecidingSum(entries, k, n) == LeastSum(ReciprocalShare(k), entries, n)
  {
    if n > 0 {
      DecidingSumIs(entries, k, n - 1);
    }
  }

  lemma {:induction false} EntriesScore<K(!new)>(entries: seq<Entry<K>>, k: real)
    requires k > 0.0 && Ranked(entries)
    ensures FuseEntries(entries, k).rrfScore == DecidingSum(entries, k, |entries|)
  {
    DecidingSumIs(entries, k, |entries|);
    SumIsLeastSum(ReciprocalShare(k), entries);
  }

  /**
   The score is the sum of 1 / (k + rank) over one occurrence of each provider, the first
   one with the least rank; no other occurrence counts.
   */
  lemma {:induction false} ScoreIsOverTheLeast(anonymous: nat -> string, occurrences: seq<Occurrence>, k: real)
    requires k > 0.0
    ensures Fuse(anonymous, occurrences, k).rrfScore ==
      DecidingSum(Occurring(anonymous, occurrences), k, |occurrences|)
  {
    OccurringAreEntries(anonymous, occurrences);
    EntriesScore(Entries(anonymous, occurrences), k);
  }

  /** Each provider is listed with the least rank of its occurrences, and no other provider is. */
  lemma {:induction false} ProvidersAreListed(anonymous: nat -> string, occurrences: seq<Occurrence>, k: real, name: string)
    requires k > 0.0
    ensures var ranks, occurring := Fuse(anonymous, occurrences, k).providerRanks, Occurring(anonymous, occurrences);
      && (name in ranks ==> IsBest(occurring, name, ranks[name]))
      && (name !in ranks ==> forall i :: 0 <= i < |occurring| ==> occurring[i].key != name)
  {
    OccurringAreEntries(anonymous, occurrences);
    BestIsLeast(Entries(anonymous, occurrences), name);
  }

  /** There are as many providers as are listed. */
  lemma {:induction false} ProvidersAreCounted(anonymous: nat -> string, occurrences: seq<Occurrence>, k: real)
    requires k > 0.0
    ensures var f := Fuse(anonymous, occurrences, k); f.providerCount == |f.providerRanks|
  {
    var entries := Entries(anonymous, occurrences);
    var keys := Keys(entries);
    KeysAreBest(entries);
    DistinctLength(keys);
    assert Elements(keys) == Best(entries).Keys;
  }

  ghost function Elements<K>(s: seq<K>): set<K> {
    set x | x in s
  }

  lemma {:induction false} DistinctLength<K>(s: seq<K>)
    requires Apart(s)
    ensures |Elements(s)| == |s|
    decreases |s|
  {
    if s == [] {
      assert Elements(s) == {};
    } else {
      var n := |s| - 1;
      DistinctLength(s[..n]);
      assert s == s[..n] + [s[n]];
      assert Elements(s) == Elements(s[..n]) + {s[n]};
    }
  }

  // ---------------------------------------------------------------------------
  // One occurrence for each provider
  // ---------------------------------------------------------------------------

  predicate KeysDiffer<K(==)>(entries: seq<Entry<K>>) {
    forall i, j :: 0 <= i < j < |entries| ==> entries[i].key != entries[j].key
  }

  /** The sum of 1 / (k + rank) over the first `n` of them. */
  function PlainSum<K>(entries: seq<Entry<K>>, k: real, n: nat): real
    requires k > 0.0 && Ranked(entries) && n <= |entries|
  {
    if n == 0 then 0.0 else PlainSum(entries, k, n - 1) + Reciprocal(k, entries[n - 1].rank)
  }

  lemma {:induction false} AllDecide<K>(entries: seq<Entry<K>>, k: real, n: nat)
    requires k > 0.0 && Ranked(entries) && KeysDiffer(entries) && n <= |entries|
    ensures DecidingSum(entries, k, n) == PlainSum(entries, k, n)
  {
    if n > 0 {
      AllDecide(entries, k, n - 1);
      assert IsLeast(entries, n - 1);
    }
  }

  /** Over different providers the score is the sum of 1 / (k + rank) over all occurrences. */
  lemma {:induction false} ScoreOfDifferentProviders(anonymous: nat -> string, occurrences: seq<Occurrence>, k: real)
    requires k > 0.0 && KeysDiffer(Occurring(anonymous, occurrences))
    ensures Fuse(anonymous, occurrences, k).rrfScore == PlainSum(Occurring(anonymous, occurrences), k, |occurrences|)
  {
    ScoreIsOverTheLeast(anonymous, occurrences, k);
    AllDecide(Occurring(anonymous, occurrences), k, |occurrences|);
  }

  // ---------------------------------------------------------------------------
  // A better rank
  // ---------------------------------------------------------------------------

  lemma {:induction false} KeysLookAtKeys<K>(a: seq<Entry<K>>, b: seq<Entry<K>>)
    requires |a| == |b| && forall i :: 0 <= i < |a| ==> a[i].key == b[i].key
    ensures Keys(a) == Keys(b)
  {
    if a != [] {
      KeysLookAtKeys(a[..|a| - 1], b[..|b| - 1]);
    }
  }

  lemma {:induction false} BestAfterLowering<K(!new)>(entries: seq<Entry<K>>, j: nat, rank: real)
    requires j < |entries|
    requires forall i :: 0 <= i < |entries| && entries[i].key == entries[j].key ==> rank < entries[i].rank
    ensures Best(entries[j := Entry(entries[j].key, rank)]) == Best(entries)[entries[j].key := rank]
    ensures entries[j].key in Best(entries) && rank < Best(entries)[entries[j].key]
  {
    var key := entries[j].key;
    var lower := entries[j := Entry(key, rank)];
    BestIsLeast(entries, key);
    assert lower[j] == Entry(key, rank);
    forall other ensures other in Best(lower) <==> other in Best(entries)
      ensures other in Best(lower) ==> Best(lower)[other] == if other == key then rank else Best(entries)[other]
    {
      BestIsLeast(lower, other);
      BestIsLeast(entries, other);
      if other in Best(entries) {
        var i :| 0 <= i < |entries| && entries[i] == Entry(other, Best(entries)[other]);
        assert lower[i].key == other;
      }
      if other in Best(lower) {
        var i :| 0 <= i < |lower| && lower[i] == Entry(other, Best(lower)[other]);
        assert entries[i].key == other;
      }
    }
  }

  /** A better rank adds strictly more. */
  lemma {:induction false} SumRises<K>(share: Share, best: map<K, real>, keys: seq<K>, key: K, rank: real)
    requires (forall i :: 0 <= i < |keys| ==> keys[i] in best) && (forall i, j :: 0 <= i < j < |keys| ==> keys[i] != keys[j])
    requires key in keys && share(rank) > share(best[key])
    ensures Sum(share, best[key := rank], keys) > Sum(share, best, keys)
    decreases |keys|
  {
    var n := |keys| - 1;
    if keys[n] == key {
      SumStays(share, best, keys[..n], key, rank);
    } else {
      SumRises(share, best, keys[..n], key, rank);
    }
  }

  lemma {:induction false} SumStays<K>(share: Share, best: map<K, real>, keys: seq<K>, key: K, rank: real)
    requires (forall i :: 0 <= i < |keys| ==> keys[i] in best) && key !in keys
    ensures Sum(share, best[key := rank], keys) == Sum(share, best, keys)
  {
    if keys != [] {
      SumStays(share, best, keys[..|keys| - 1], key, rank);
    }
  }

  lemma {:induction false} ShareRises(k: real, rank: real, than: real)
    requires k > 0.0 && 0.0 < rank < than
    ensures ReciprocalShare(k)(rank) > ReciprocalShare(k)(than)
  {
    Quotients(k + rank, k + than);
  }

  lemma {:induction false} LoweringRaises<K(!new)>(entries: seq<Entry<K>>, j: nat, rank: real, k: real)
    requires k > 0.0 && j < |entries| && Ranked(entries) && rank > 0.0
    requires forall i :: 0 <= i < |entries| && entries[i].key == entries[j].key ==> rank < entries[i].rank
    ensures FuseEntries(entries[j := Entry(entries[j].key, rank)], k).rrfScore > FuseEntries(entries, k).rrfScore
  {
    var key := entries[j].key;
    var lower := entries[j := Entry(key, rank)];
    BestAfterLowering(entries, j, rank);
    KeysLookAtKeys(entries, lower);
    KeysAreBest(entries);
    ShareRises(k, rank, Best(entries)[key]);
    SumRises(ReciprocalShare(k), Best(entries), Keys(entries), key, rank);
  }

  lemma {:induction false} LoweredOccurrence(anonymous: nat -> string, occurrences: seq<Occurrence>, j: nat, rank: real)
    requires j < |occurrences| && rank > 0.0
    ensures var entries := Occurring(anonymous, occurrences);
      Occurring(anonymous, occurrences[j := occurrences[j].(providerRank := Some(rank))]) ==
        entries[j := Entry(entries[j].key, rank)]
  {
    var better := occurrences[j := occurrences[j].(providerRank := Some(rank))];
    forall i | 0 <= i < |occurrences|
      ensures ProviderOf(anonymous, better, i) == ProviderOf(anonymous, occurrences, i)
    {
      assert better[i].provider == occurrences[i].provider && better[i].sourceFamily == occurrences[i].sourceFamily;
    }
  }

  /**
   A rank below all that a provider has raises the score: the occurrence at `j` takes a
   positive rank that is less than every rank its provider has.
   */
  lemma {:induction false} BetterRankRaisesScore(anonymous: nat -> string, occurrences: seq<Occurrence>, k: real, j: nat,
                                                 rank: real)
    requires k > 0.0 && j < |occurrences| && rank > 0.0
    requires var entries := Occurring(anonymous, occurrences);
      forall i :: 0 <= i < |entries| && entries[i].key == entries[j].key ==> rank < entries[i].rank
    ensures var better := occurrences[j := occurrences[j].(providerRank := Some(rank))];
      Fuse(anonymous, better, k).rrfScore > Fuse(anonymous, occurrences, k).rrfScore
  {
    var better := occurrences[j := occurrences[j].(providerRank := Some(rank))];
    LoweredOccurrence(anonymous, occurrences, j, rank);
    OccurringAreEntries(anonymous, occurrences);
    OccurringAreEntries(anonymous, better);
    LoweringRaises(Occurring(anonymous, occurrences), j, rank, k);
  }

  // ---------------------------------------------------------------------------
  // One provider
  // ---------------------------------------------------------------------------

  lemma {:induction false} OneKey<K(!new)>(entries: seq<Entry<K>>, key: K, rank: real)
    requires Best(entries) == map[key := rank]
    ensures Keys(entries) == [key]
  {
    var keys := Keys(entries);
    assert |keys| > 1 ==> keys[0] != keys[1];
    KeysAreBest(entries);
    assert key in Best(entries);
    forall i | 0 <= i < |keys| ensures keys[i] == key { assert keys[i] in Best(entries); }
  }

  lemma {:induction false} OneKeySum<K>(share: Share, best: map<K, real>, key: K)
    requires key in best
    ensures Sum(share, best, [key]) == share(best[key])
  {
    assert Sum(share, best, [key][..0]) == 0.0;
  }

  lemma {:induction false} ShareIs(k: real, rank: real)
    requires k > 0.0 && rank > 0.0
    ensures ReciprocalShare(k)(rank) == Reciprocal(k, rank)
  {
  }

  lemma {:induction false} OneKeyScore<K(!new)>(entries: seq<Entry<K>>, k: real, key: K, rank: real)
    requires k > 0.0 && rank > 0.0 && Best(entries) == map[key := rank]
    ensures FuseEntries(entries, k).rrfScore == Reciprocal(k, rank)
  {
    OneKey(entries, key, rank);
    OneKeySum(ReciprocalShare(k), Best(entries), key);
    ShareIs(k, rank);
  }

  lemma {:induction false} OneEntryIsBest<K>(entry: Entry<K>)
    ensures Best([entry]) == map[entry.key := entry.rank]
  {
    assert [entry][..0] == [];
  }

  lemma {:induction false} OneEntryScore<K(!new)>(entry: Entry<K>, k: real)
    requires k > 0.0 && entry.rank > 0.0
    ensures FuseEntries([entry], k).rrfScore == Reciprocal(k, entry.rank)
  {
    OneEntryIsBest(entry);
    OneKeyScore([entry], k, entry.key, entry.rank);
  }

  lemma {:induction false} OneOccurrenceIsEntry(anonymous: nat -> string, o: Occurrence)
    ensures Entries(anonymous, [o]) == [Entry(ProviderOf(anonymous, [o], 0), CountedRank(o))]
  {
    OccurringAreEntries(anonymous, [o]);
  }

  /** A single occurrence adds 1 / (k + its rank). */
  lemma {:induction false} OneOccurrenceScore(anonymous: nat -> string, o: Occurrence, k: real, rank: real)
    requires k > 0.0 && rank == CountedRank(o)
    ensures rank > 0.0 && Fuse(anonymous, [o], k).rrfScore == Reciprocal(k, rank)
  {
    OneOccurrenceIsEntry(anonymous, o);
    OneEntryScore(Entry(ProviderOf(anonymous, [o], 0), rank), k);
  }

  /** A single provider adds 1 / (k + its rank). */
  lemma {:induction false} OneProviderScore(anonymous: nat -> string, occurrences: seq<Occurrence>, k: real, name: string,
                                            rank: real)
    requires k > 0.0 && Fuse(anonymous, occurrences, k).providerRanks == map[name := rank]
    ensures rank > 0.0 && Fuse(anonymous, occurrences, k).rrfScore == Reciprocal(k, rank)
  {
    var entries := Entries(anonymous, occurrences);
    BestIsRanked(entries);
    assert name in Best(entries);
    OneKeyScore(entries, k, name, rank);
  }
}
