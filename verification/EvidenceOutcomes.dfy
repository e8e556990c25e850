/**
 What the index tells about the saves that made it, and which document of a group is the
 canonical one, told by ranks, times and ids. All of it holds for any matching.
 */
module EvidenceOutcomes {
  import opened Wrappers
  import opened Permutations
  import opened EvidenceGroups

  // ---------------------------------------------------------------------------
  // What an entry remembers
  // ---------------------------------------------------------------------------

  ghost function TimesSaved(saves: seq<Save>, id: int): nat {
    |SavesOf(saves, id)|
  }

  ghost function SavesOf(saves: seq<Save>, id: int): set<nat> {
    set k: nat | k < |saves| && saves[k].id == id
  }

  ghost predicate IsFirstSave(saves: seq<Save>, id: int, k: nat) {
    k < |saves| && saves[k].id == id && forall j :: 0 <= j < k ==> saves[j].id != id
  }

  ghost predicate IsLastSave(saves: seq<Save>, id: int, k: nat) {
    k < |saves| && saves[k].id == id && forall j :: k < j < |saves| ==> saves[j].id != id
  }

  /** First seen at the first save of the document; last seen, rank and count as of the last one. */
  ghost predicate Remembers(saves: seq<Save>, e: Entry, first: nat, last: nat) {
    && IsFirstSave(saves, e.core.id, first) && IsLastSave(saves, e.core.id, last)
    && e.core.firstSeen == saves[first].now && e.core.sourceRank == saves[last].sourceRank
    && e.lastSeen == saves[last].now && e.seenCount == TimesSaved(saves, e.core.id)
  }

  ghost predicate RemembersSaves(saves: seq<Save>, e: Entry) {
    exists first, last :: Remembers(saves, e, first, last)
  }

  ghost predicate IndexRemembers(saves: seq<Save>, docs: seq<Entry>) {
    && DistinctIds(Cores(docs))
    && (forall i :: 0 <= i < |docs| ==> RemembersSaves(saves, docs[i]))
    && (forall k :: 0 <= k < |saves| ==> HasId(docs, saves[k].id))
  }

  lemma {:induction false} SavesOfNext(saves: seq<Save>, save: Save, id: int)
    ensures TimesSaved(saves + [save], id) == TimesSaved(saves, id) + if save.id == id then 1 else 0
  {
    var more := saves + [save];
    assert SavesOf(more, id) == if save.id == id then SavesOf(saves, id) + {|saves|} else SavesOf(saves, id);
  }

  /** A save of another document changes nothing that is remembered. */
  lemma {:induction false} OtherSave(saves: seq<Save>, save: Save, e: Entry, f: Entry)
    requires RemembersSaves(saves, e) && save.id != e.core.id
    requires f.core == e.core && f.lastSeen == e.lastSeen && f.seenCount == e.seenCount
    ensures RemembersSaves(saves + [save], f)
  {
    var first: nat, last: nat :| Remembers(saves, e, first, last);
    SavesOfNext(saves, save, e.core.id);
    assert Remembers(saves + [save], f, first, last);
  }

  /** A further save keeps the first time and counts one more. */
  lemma {:induction false} AnotherSave(saves: seq<Save>, save: Save, e: Entry, f: Entry)
    requires RemembersSaves(saves, e) && save.id == e.core.id
    requires f.core == Core(save.id, save.sourceRank, e.core.firstSeen)
    requires f.lastSeen == save.now && f.seenCount == e.seenCount + 1
    ensures RemembersSaves(saves + [save], f)
  {
    var first: nat, last: nat :| Remembers(saves, e, first, last);
    SavesOfNext(saves, save, e.core.id);
    assert Remembers(saves + [save], f, first, |saves|);
  }

  lemma {:induction false} FirstOfId(saves: seq<Save>, save: Save, f: Entry)
    requires forall k :: 0 <= k < |saves| ==> saves[k].id != save.id
    requires f.core == Core(save.id, save.sourceRank, save.now) && f.lastSeen == save.now && f.seenCount == 1
    ensures RemembersSaves(saves + [save], f)
  {
    SavesOfNext(saves, save, save.id);
    assert SavesOf(saves, save.id) == {};
    assert Remembers(saves + [save], f, |saves|, |saves|);
  }

  lemma {:induction false} LookupFinds(docs: seq<Entry>, id: int)
    ensures Lookup(docs, id).Some? <==> HasId(docs, id)
    ensures Lookup(docs, id).Some? ==>
      exists i :: 0 <= i < |docs| && docs[i] == Lookup(docs, id).value && docs[i].core.id == id
    decreases |docs|
  {
    if docs != [] {
      LookupFinds(docs[1..], id);
      if docs[0].core.id == id {
        assert HasId(docs, id);
      } else {
        if HasId(docs[1..], id) {
          var i :| 0 <= i < |docs[1..]| && docs[1..][i] == Lookup(docs[1..], id).value && docs[1..][i].core.id == id;
          assert docs[i + 1] == docs[1..][i];
        }
        if HasId(docs, id) {
          var i :| 0 <= i < |docs| && docs[i].core.id == id;
          assert docs[1..][i - 1].core.id == id;
        }
      }
    }
  }

  lemma {:induction false} SameCores(docs: seq<Entry>, i: nat, j: nat)
    requires DistinctIds(Cores(docs)) && i < |docs| && j < |docs| && docs[i].core.id == docs[j].core.id
    ensures i == j
  {
    assert Cores(docs)[i].id == Cores(docs)[j].id;
  }

  /** The saved document as `NewEntry` makes it. */
  lemma {:induction false} NewEntryRemembers(saves: seq<Save>, docs: seq<Entry>, save: Save)
    requires IndexRemembers(saves, docs)
    ensures RemembersSaves(saves + [save], NewEntry(docs, save))
  {
    LookupFinds(docs, save.id);
    var found := Lookup(docs, save.id);
    if found.Some? {
      var i :| 0 <= i < |docs| && docs[i] == found.value && docs[i].core.id == save.id;
      AnotherSave(saves, save, docs[i], NewEntry(docs, save));
    } else {
      forall k | 0 <= k < |saves| ensures saves[k].id != save.id { assert HasId(docs, saves[k].id); }
      FirstOfId(saves, save, NewEntry(docs, save));
    }
  }

  /** Rewriting relations changes nothing that is remembered. */
  lemma {:induction false} RelationsAreNotRemembered(saves: seq<Save>, e: Entry, f: Entry)
    requires RemembersSaves(saves, e) && f.core == e.core && f.lastSeen == e.lastSeen && f.seenCount == e.seenCount
    ensures RemembersSaves(saves, f)
  {
    var first: nat, last: nat :| Remembers(saves, e, first, last);
    assert Remembers(saves, f, first, last);
  }

  lemma {:induction false} PutRemembers(saves: seq<Save>, docs: seq<Entry>, save: Save)
    requires IndexRemembers(saves, docs)
    ensures IndexRemembers(saves + [save], Put(docs, NewEntry(docs, save)))
  {
    var e := NewEntry(docs, save);
    var put := Put(docs, e);
    PutIsUpdate(docs, e);
    NewEntryRemembers(saves, docs, save);
    forall i | 0 <= i < |put| ensures RemembersSaves(saves + [save], put[i]) {
      if i < |docs| && docs[i].core.id != save.id { OtherSave(saves, save, docs[i], put[i]); }
    }
    PutHasAll(docs, e);
    forall k | 0 <= k < |saves + [save]| ensures HasId(put, (saves + [save])[k].id) {
      if k < |saves| { assert HasId(docs, saves[k].id); }
    }
  }

  lemma {:induction false} PutHasAll(docs: seq<Entry>, e: Entry)
    requires DistinctIds(Cores(docs))
    ensures HasId(Put(docs, e), e.core.id) && forall id :: HasId(docs, id) ==> HasId(Put(docs, e), id)
  {
    var put := Put(docs, e);
    PutIsUpdate(docs, e);
    PutHasNew(docs, e);
    forall id | HasId(docs, id) ensures HasId(put, id) {
      var i :| 0 <= i < |docs| && docs[i].core.id == id;
      assert put[i].core.id == id;
    }
  }

  lemma {:induction false} PutHasNew(docs: seq<Entry>, e: Entry)
    ensures HasId(Put(docs, e), e.core.id)
    decreases |docs|
  {
    if docs == [] || docs[0].core.id == e.core.id {
      assert Put(docs, e)[0].core.id == e.core.id;
    } else {
      PutHasNew(docs[1..], e);
      var i :| 0 <= i < |Put(docs[1..], e)| && Put(docs[1..], e)[i].core.id == e.core.id;
      assert Put(docs, e)[i + 1].core.id == e.core.id;
    }
  }

  lemma {:induction false} RewriteRemembers(m: Matching, saves: seq<Save>, docs: seq<Entry>, id: int)
    requires IndexRemembers(saves, docs)
    ensures IndexRemembers(saves, Rewrite(m, docs, id))
  {
    var r := Rewrite(m, docs, id);
    forall i | 0 <= i < |r| ensures RemembersSaves(saves, r[i]) { RelationsAreNotRemembered(saves, docs[i], r[i]); }
    forall k | 0 <= k < |saves| ensures HasId(r, saves[k].id) {
      assert HasId(docs, saves[k].id);
      var i :| 0 <= i < |docs| && docs[i].core.id == saves[k].id;
      assert Cores(r)[i] == Cores(docs)[i] && r[i].core.id == saves[k].id;
    }
  }

  lemma {:induction false} SaveRemembers(m: Matching, saves: seq<Save>, docs: seq<Entry>, save: Save)
    requires IndexRemembers(saves, docs)
    ensures IndexRemembers(saves + [save], Apply(m, docs, save))
  {
    PutRemembers(saves, docs, save);
    RewriteRemembers(m, saves + [save], Put(docs, NewEntry(docs, save)), save.id);
  }

  lemma {:induction false} NothingRemembered(m: Matching)
    ensures IndexRemembers([], After(m, []))
  {
  }

  lemma {:induction false} NextRemembers(m: Matching, saves: seq<Save>, save: Save)
    requires IndexRemembers(saves, After(m, saves))
    ensures IndexRemembers(saves + [save], After(m, saves + [save]))
  {
    AfterMore(m, saves, save);
    SaveRemembers(m, saves, After(m, saves), save);
  }

  lemma {:induction false} AfterRemembers(m: Matching, saves: seq<Save>)
    ensures IndexRemembers(saves, After(m, saves))
    decreases |saves|
  {
    if saves == [] {
      NothingRemembered(m);
    } else {
      var n := |saves| - 1;
      var init, save := saves[..n], saves[n];
      assert saves == init + [save];
      AfterRemembers(m, init);
      NextRemembers(m, init, save);
    }
  }

  /**
   After any sequence of saves there is one document for each id that was saved. It keeps
   the time of its first save, has the rank and the time of its last one, and counts them.
   */
  lemma {:induction false} IndexTellsTheSaves(m: Matching, saves: seq<Save>)
    ensures var docs := After(m, saves);
      && DistinctIds(Cores(docs))
      && (forall i :: 0 <= i < |docs| ==> RemembersSaves(saves, docs[i]))
      && (forall k :: 0 <= k < |saves| ==> HasId(docs, saves[k].id))
  {
    AfterRemembers(m, saves);
  }

  // ---------------------------------------------------------------------------
  // Which document is the canonical one
  // ---------------------------------------------------------------------------

  /** The greater rank, then the earlier first time, then the smaller id. */
  predicate StandsBefore(a: Core, b: Core) {
    || a.sourceRank > b.sourceRank
    || (a.sourceRank == b.sourceRank && a.firstSeen < b.firstSeen)
    || (a.sourceRank == b.sourceRank && a.firstSeen == b.firstSeen && a.id < b.id)
  }

  /** Document `b` is in the group of `id` and stands before all others of the group. */
  ghost predicate Leads(m: Matching, docs: seq<Entry>, id: int, b: nat) {
    && b < |docs| && m(id, docs[b].core.id)
    && forall k :: 0 <= k < |docs| && m(id, docs[k].core.id) && k != b ==> StandsBefore(docs[b].core, docs[k].core)
  }

  /** The ids of the group of `id` other than that of `b`, ascending. */
  ghost predicate ListsOthers(m: Matching, docs: seq<Entry>, id: int, b: nat, duplicates: seq<int>)
    requires b < |docs|
  {
    && Ascending(duplicates)
    && (forall k :: 0 <= k < |docs| && m(id, docs[k].core.id) && k != b ==> docs[k].core.id in duplicates)
    && (forall x :: x in duplicates ==> exists k :: 0 <= k < |docs| && k != b && m(id, docs[k].core.id) && docs[k].core.id == x)
  }

  /** The relations of member `k` of the group of `id` that `b` leads. */
  ghost predicate PointsToLeader(m: Matching, docs: seq<Entry>, id: int, b: nat, k: nat)
    requires b < |docs| && k < |docs|
  {
    var r := docs[k].relations;
    if k == b then
      r.isCanonical && r.canonicalId == docs[b].core.id && r.duplicateOf.None? && ListsOthers(m, docs, id, b, r.duplicates)
    else r == Relations(false, docs[b].core.id, Some(docs[b].core.id), [])
  }

  lemma {:induction false} MemberStands(m: Matching, docs: seq<Entry>, id: int, c: Core) returns (k: nat)
    requires c in Group(m, Cores(docs), id)
    ensures k < |docs| && docs[k].core == c && m(id, c.id)
  {
    var group := Group(m, Cores(docs), id);
    var j :| 0 <= j < |group| && group[j] == c;
    k :| 0 <= k < |docs| && Cores(docs)[k] == c;
  }

  lemma {:induction false} BestLeads(m: Matching, docs: seq<Entry>, id: int) returns (b: nat)
    requires DistinctIds(Cores(docs)) && Group(m, Cores(docs), id) != []
    ensures Leads(m, docs, id, b) && docs[b].core == Best(Group(m, Cores(docs), id))
  {
    var group := Group(m, Cores(docs), id);
    FilterDistinct(Matches(m, id), Cores(docs));
    BestIsFirst(group);
    b := MemberStands(m, docs, id, Best(group));
    forall k | 0 <= k < |docs| && m(id, docs[k].core.id) && k != b ensures StandsBefore(docs[b].core, docs[k].core) {
      GroupHas(m, Cores(docs), id, k);
      var j :| 0 <= j < |group| && group[j] == docs[k].core;
      if docs[k].core == docs[b].core { SameCores(docs, k, b); }
    }
  }

  lemma {:induction false} RestListsOthers(m: Matching, docs: seq<Entry>, id: int, b: nat, duplicates: seq<int>)
    requires DistinctIds(Cores(docs)) && b < |docs|
    requires IsSortedRest(duplicates, Group(m, Cores(docs), id), docs[b].core.id)
    ensures ListsOthers(m, docs, id, b, duplicates)
  {
    var group := Group(m, Cores(docs), id);
    forall k | 0 <= k < |docs| && m(id, docs[k].core.id) && k != b ensures docs[k].core.id in duplicates {
      GroupHas(m, Cores(docs), id, k);
      if docs[k].core.id == docs[b].core.id { SameCores(docs, k, b); }
    }
    forall x | x in duplicates
      ensures exists k :: 0 <= k < |docs| && k != b && m(id, docs[k].core.id) && docs[k].core.id == x
    {
      var c :| c in group && c.id == x;
      var k := MemberStands(m, docs, id, c);
      assert k != b;
    }
  }

  lemma {:induction false} LeaderOnlyByCores(m: Matching, docs: seq<Entry>, r: seq<Entry>, id: int, b: nat)
    requires Cores(r) == Cores(docs) && |r| == |docs| && Leads(m, docs, id, b)
    ensures Leads(m, r, id, b)
  {
    assert forall k :: 0 <= k < |docs| ==> r[k].core == Cores(r)[k] == Cores(docs)[k] == docs[k].core;
  }

  /** What `Rewrite` leaves: the leader of the group and the relations of all its members; other documents stay. */
  lemma {:induction false} RewriteMeans(m: Matching, docs: seq<Entry>, id: int) returns (b: nat)
    requires DistinctIds(Cores(docs)) && exists k :: 0 <= k < |docs| && m(id, docs[k].core.id)
    ensures var r := Rewrite(m, docs, id);
      && Leads(m, r, id, b)
      && (forall k :: 0 <= k < |r| && m(id, r[k].core.id) ==> PointsToLeader(m, r, id, b, k))
      && (forall k :: 0 <= k < |r| && !m(id, r[k].core.id) ==> r[k] == docs[k])
  {
    var r := Rewrite(m, docs, id);
    var i :| 0 <= i < |docs| && m(id, docs[i].core.id);
    GroupHas(m, Cores(docs), id, i);
    var group := Group(m, Cores(docs), id);
    b := BestLeads(m, docs, id);
    LeaderOnlyByCores(m, docs, r, id, b);
    forall k | 0 <= k < |r| && m(id, r[k].core.id) ensures PointsToLeader(m, r, id, b, k) {
      MemberPoints(m, docs, id, b, k);
    }
  }

  lemma {:induction false} MemberPoints(m: Matching, docs: seq<Entry>, id: int, b: nat, k: nat)
    requires DistinctIds(Cores(docs)) && b < |docs| && k < |docs| && m(id, docs[k].core.id)
    requires Group(m, Cores(docs), id) != [] && docs[b].core == Best(Group(m, Cores(docs), id))
    ensures PointsToLeader(m, Rewrite(m, docs, id), id, b, k)
  {
    var r, group := Rewrite(m, docs, id), Group(m, Cores(docs), id);
    assert r[k].core == docs[k].core && r[b].core == docs[b].core;
    if k == b {
      FilterDistinct(Matches(m, id), Cores(docs));
      RestIsSorted(group, docs[b].core.id);
      RestListsOthers(m, r, id, b, SortIds(IdsExcept(group, docs[b].core.id)));
    } else if docs[k].core.id == docs[b].core.id {
      SameCores(docs, k, b);
    }
  }

  lemma {:induction false} ApplyRewrites(m: Matching, docs: seq<Entry>, save: Save) returns (b: nat)
    requires IsMatching(m) && DistinctIds(Cores(docs))
    ensures var r := Apply(m, docs, save);
      && |docs| <= |r| && Leads(m, r, save.id, b)
      && (forall k :: 0 <= k < |r| && m(save.id, r[k].core.id) ==> PointsToLeader(m, r, save.id, b, k))
      && (forall k :: 0 <= k < |docs| && !m(save.id, docs[k].core.id) ==> r[k] == docs[k])
  {
    var put := Put(docs, NewEntry(docs, save));
    PutIsUpdate(docs, NewEntry(docs, save));
    PutHasNew(docs, NewEntry(docs, save));
    var i :| 0 <= i < |put| && put[i].core.id == save.id;
    assert m(save.id, put[i].core.id);
    b := RewriteMeans(m, put, save.id);
  }

  /**
   Every save rewrites the group of the saved document, whatever matches: its first member by
   rank, time and id is the canonical one and lists the others, and these point to it. No
   document outside the group changes.
   */
  lemma {:induction false} SaveRewritesItsGroup(m: Matching, saves: seq<Save>, save: Save) returns (b: nat)
    requires IsMatching(m)
    ensures var before, after := After(m, saves), After(m, saves + [save]);
      && |before| <= |after| && Leads(m, after, save.id, b)
      && (forall k :: 0 <= k < |after| && m(save.id, after[k].core.id) ==> PointsToLeader(m, after, save.id, b, k))
      && (forall k :: 0 <= k < |before| && !m(save.id, before[k].core.id) ==> after[k] == before[k])
  {
    AfterRemembers(m, saves);
    AfterMore(m, saves, save);
    b := ApplyRewrites(m, After(m, saves), save);
  }
}
