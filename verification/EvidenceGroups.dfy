/**
 The duplicate relations of the evidence index. Documents are known by the collation
 place of their id, and whether two documents match is a function of their ids, since
 an id is made from the URL, the document number and the title.
 */
module EvidenceGroups {
  import opened Wrappers
  import opened Permutations

  /** What the order of priority looks at. */
  datatype Core = Core(id: int, sourceRank: int, firstSeen: int)

  datatype Relations = Relations(isCanonical: bool, canonicalId: int, duplicateOf: Option<int>, duplicates: seq<int>)

  datatype Entry = Entry(core: Core, lastSeen: int, seenCount: nat, relations: Relations)

  type Matching = (int, int) -> bool

  ghost predicate IsMatching(m: Matching) {
    (forall a :: m(a, a)) && (forall a, b :: m(a, b) ==> m(b, a))
  }

  /** The comparator as a strict order: higher rank, then seen earlier, then the smaller id. */
  predicate Prior(a: Core, b: Core) {
    a.sourceRank > b.sourceRank
    || (a.sourceRank == b.sourceRank && (a.firstSeen < b.firstSeen || (a.firstSeen == b.firstSeen && a.id < b.id)))
  }

  /** The first of the sorted group. */
  function Best(group: seq<Core>): (best: Core)
    requires group != []
    ensures best in group
  {
    var n := |group| - 1;
    if n == 0 then group[0]
    else
      assert group == group[..n] + [group[n]];
      var best := Best(group[..n]);
      if Prior(group[n], best) then group[n] else best
  }

  function InsertId(x: int, s: seq<int>): seq<int> {
    if s == [] || x <= s[0] then [x] + s else [s[0]] + InsertId(x, s[1..])
  }

  function SortIds(s: seq<int>): seq<int> {
    if s == [] then [] else InsertId(s[0], SortIds(s[1..]))
  }

  function IdsExcept(group: seq<Core>, id: int): seq<int> {
    Map((c: Core) => c.id, Filter((c: Core) => c.id != id, group))
  }

  /** The relations of a member of a group. */
  function RelationsIn(group: seq<Core>, id: int): Relations
    requires group != []
  {
    var best := Best(group).id;
    if id == best then Relations(true, id, None, SortIds(IdsExcept(group, id)))
    else Relations(false, best, Some(best), [])
  }

  function SelfRelations(id: int): Relations {
    Relations(true, id, None, [])
  }

  function Cores(docs: seq<Entry>): (r: seq<Core>)
    ensures |r| == |docs| && forall i :: 0 <= i < |docs| ==> r[i] == docs[i].core
  {
    Map((e: Entry) => e.core, docs)
  }

  function Matches(m: Matching, id: int): Core -> bool {
    (c: Core) => m(id, c.id)
  }

  /** The documents that match the one with this id, in the order of the index. */
  function Group(m: Matching, cores: seq<Core>, id: int): seq<Core> {
    Filter(Matches(m, id), cores)
  }

  /** Assigning under an id: in place, or at the end when it is new. */
  function Put(docs: seq<Entry>, e: Entry): (r: seq<Entry>)
    ensures |docs| <= |r| <= |docs| + 1
  {
    if docs == [] then [e]
    else if docs[0].core.id == e.core.id then [e] + docs[1..]
    else [docs[0]] + Put(docs[1..], e)
  }

  function Lookup(docs: seq<Entry>, id: int): Option<Entry> {
    if docs == [] then None else if docs[0].core.id == id then Some(docs[0]) else Lookup(docs[1..], id)
  }

  datatype Save = Save(id: int, sourceRank: int, now: int)

  /** The new entry of a save, before its group is rewritten. */
  function NewEntry(docs: seq<Entry>, save: Save): Entry {
    var existing := Lookup(docs, save.id);
    Entry(Core(save.id, save.sourceRank, if existing.Some? then existing.value.core.firstSeen else save.now),
          save.now, if existing.Some? then existing.value.seenCount + 1 else 1, SelfRelations(save.id))
  }

  /** All members of the group of `id` get the relations of that group. */
  function Rewrite(m: Matching, docs: seq<Entry>, id: int): (r: seq<Entry>)
    ensures |r| == |docs| && Cores(r) == Cores(docs)
  {
    var group := Group(m, Cores(docs), id);
    seq(|docs|, i requires 0 <= i < |docs| =>
      if m(id, docs[i].core.id) && group != [] then docs[i].(relations := RelationsIn(group, docs[i].core.id)) else docs[i])
  }

  function Apply(m: Matching, docs: seq<Entry>, save: Save): seq<Entry> {
    Rewrite(m, Put(docs, NewEntry(docs, save)), save.id)
  }

  function After(m: Matching, saves: seq<Save>): seq<Entry> {
    if saves == [] then [] else Apply(m, After(m, saves[..|saves| - 1]), saves[|saves| - 1])
  }

  // ---------------------------------------------------------------------------
  // The best of a group and the sorted rest
  // ---------------------------------------------------------------------------

  predicate DistinctIds(cores: seq<Core>) {
    forall i, j :: 0 <= i < j < |cores| ==> cores[i].id != cores[j].id
  }

  lemma {:induction false} BestIsFirst(group: seq<Core>)
    requires group != [] && DistinctIds(group)
    ensures forall i :: 0 <= i < |group| ==> group[i] == Best(group) || Prior(Best(group), group[i])
  {
    var n := |group| - 1;
    if n > 0 {
      BestIsFirst(group[..n]);
      var best := Best(group[..n]);
      forall i | 0 <= i < |group| ensures group[i] == Best(group) || Prior(Best(group), group[i]) {
        if i < n { assert group[i] == group[..n][i]; }
        var j :| 0 <= j < n && group[..n][j] == best;
        assert group[j].id != group[n].id;
      }
    }
  }

  predicate Ascending(s: seq<int>) {
    forall i, j :: 0 <= i < j < |s| ==> s[i] < s[j]
  }

  lemma {:induction false} InsertedIds(x: int, s: seq<int>)
    requires Ascending(s) && x !in s
    ensures Ascending(InsertId(x, s)) && forall y :: y in InsertId(x, s) <==> y == x || y in s
  {
    if s != [] && x > s[0] {
      InsertedIds(x, s[1..]);
      assert s == [s[0]] + s[1..];
      var tail := InsertId(x, s[1..]);
      forall k | 0 <= k < |tail| ensures s[0] < tail[k] {
        assert tail[k] in tail;
      }
    }
  }

  lemma {:induction false} SortedIds(s: seq<int>)
    requires Distinct(s)
    ensures Ascending(SortIds(s)) && forall y :: y in SortIds(s) <==> y in s
  {
    if s != [] {
      SortedIds(s[1..]);
      assert s == [s[0]] + s[1..];
      assert s[0] !in s[1..];
      InsertedIds(s[0], SortIds(s[1..]));
    }
  }

  predicate Distinct(s: seq<int>) {
    forall i, j :: 0 <= i < j < |s| ==> s[i] != s[j]
  }

  lemma {:induction false} FilterDistinct(keep: Core -> bool, cores: seq<Core>)
    requires DistinctIds(cores)
    ensures DistinctIds(Filter(keep, cores))
    ensures forall c :: c in Filter(keep, cores) <==> c in cores && keep(c)
  {
    if cores != [] {
      var n := |cores| - 1;
      FilterDistinct(keep, cores[..n]);
      assert cores == cores[..n] + [cores[n]];
      var init := Filter(keep, cores[..n]);
      forall i | 0 <= i < |init| ensures init[i].id != cores[n].id {
        var j :| 0 <= j < n && cores[..n][j] == init[i];
        assert cores[j].id != cores[n].id;
      }
    }
  }

  /** `rest` are the ids of the group other than `id`, in ascending order. */
  ghost predicate IsSortedRest(rest: seq<int>, group: seq<Core>, id: int) {
    && Ascending(rest)
    && (forall y :: y in rest ==> y != id && exists c :: c in group && c.id == y)
    && (forall c :: c in group && c.id != id ==> c.id in rest)
  }

  lemma {:induction false} RestIsSorted(group: seq<Core>, id: int)
    requires DistinctIds(group)
    ensures IsSortedRest(SortIds(IdsExcept(group, id)), group, id)
  {
    var others := Filter((c: Core) => c.id != id, group);
    FilterDistinct((c: Core) => c.id != id, group);
    var ids := IdsExcept(group, id);
    SortedIds(ids);
    forall y | y in ids ensures y != id && exists c :: c in group && c.id == y {
      var k :| 0 <= k < |ids| && ids[k] == y;
      assert others[k] in group && others[k].id == y;
    }
    forall c | c in group && c.id != id ensures c.id in ids {
      var k :| 0 <= k < |others| && others[k] == c;
      assert ids[k] == c.id;
    }
  }

  // ---------------------------------------------------------------------------
  // Consistency
  // ---------------------------------------------------------------------------

  ghost predicate AgreesAt(m: Matching, docs: seq<Entry>, i: nat)
    requires i < |docs|
  {
    var group := Group(m, Cores(docs), docs[i].core.id);
    group != [] && docs[i].relations == RelationsIn(group, docs[i].core.id)
  }

  /** Every document carries the relations of the documents that it matches. */
  ghost predicate Consistent(m: Matching, docs: seq<Entry>) {
    DistinctIds(Cores(docs)) && forall i :: 0 <= i < |docs| ==> AgreesAt(m, docs, i)
  }

  predicate HasId(docs: seq<Entry>, id: int) {
    exists i :: 0 <= i < |docs| && docs[i].core.id == id
  }

  /** No two steps of matching lead outside the match, among these ids. */
  ghost predicate TransitiveOn(m: Matching, ids: set<int>) {
    forall a, b, c :: a in ids && b in ids && c in ids && m(a, b) && m(b, c) ==> m(a, c)
  }

  /** `r` is `docs` with `e` in the place of the document of its id, or at the end when there is none. */
  ghost predicate IsPut(docs: seq<Entry>, e: Entry, r: seq<Entry>) {
    && |docs| <= |r|
    && (forall i :: 0 <= i < |docs| ==> r[i] == if docs[i].core.id == e.core.id then e else docs[i])
    && (|r| > |docs| ==> r[|docs|] == e && !HasId(docs, e.core.id))
  }

  lemma {:induction false} PutAtHead(docs: seq<Entry>, e: Entry)
    requires DistinctIds(Cores(docs)) && docs != [] && docs[0].core.id == e.core.id
    ensures IsPut(docs, e, [e] + docs[1..])
  {
    forall i | 0 < i < |docs| ensures docs[i].core.id != e.core.id {
      assert Cores(docs)[0].id != Cores(docs)[i].id;
    }
  }

  lemma {:induction false} PutInTail(docs: seq<Entry>, e: Entry, tail: seq<Entry>)
    requires docs != [] && docs[0].core.id != e.core.id && IsPut(docs[1..], e, tail)
    ensures IsPut(docs, e, [docs[0]] + tail)
  {
    var r := [docs[0]] + tail;
    forall i | 0 < i < |docs| ensures r[i] == if docs[i].core.id == e.core.id then e else docs[i] {
      assert r[i] == tail[i - 1] && docs[i] == docs[1..][i - 1];
    }
    if HasId(docs, e.core.id) {
      var i :| 0 <= i < |docs| && docs[i].core.id == e.core.id;
      assert docs[1..][i - 1].core.id == e.core.id;
    }
  }

  lemma {:induction false} PutAtEach(docs: seq<Entry>, e: Entry)
    requires DistinctIds(Cores(docs))
    ensures IsPut(docs, e, Put(docs, e))
  {
    if docs != [] {
      if docs[0].core.id == e.core.id {
        PutAtHead(docs, e);
      } else {
        assert Cores(docs)[1..] == Cores(docs[1..]);
        PutAtEach(docs[1..], e);
        PutInTail(docs, e, Put(docs[1..], e));
      }
    }
  }

  lemma {:induction false} PutIsUpdate(docs: seq<Entry>, e: Entry)
    requires DistinctIds(Cores(docs))
    ensures var r := Put(docs, e);
      && DistinctIds(Cores(r)) && Assigns(docs, r, e.core.id)
      && (forall i :: 0 <= i < |docs| ==> r[i] == if docs[i].core.id == e.core.id then e else docs[i])
      && (|r| > |docs| ==> r[|docs|] == e)
  {
    PutAtEach(docs, e);
    var r := Put(docs, e);
    forall i, j | 0 <= i < j < |r| ensures r[i].core.id != r[j].core.id {
      assert r[i].core.id == docs[i].core.id;
      if j < |docs| {
        assert Cores(docs)[i].id != Cores(docs)[j].id;
      }
    }
  }

  /** Filters that agree on every element give the same list. */
  lemma {:induction false} SameFilter<T>(keep: T -> bool, keep': T -> bool, s: seq<T>)
    requires forall i :: 0 <= i < |s| ==> keep(s[i]) == keep'(s[i])
    ensures Filter(keep, s) == Filter(keep', s)
  {
    if s != [] {
      SameFilter(keep, keep', s[..|s| - 1]);
    }
  }

  /** Lists that differ only in elements the filter drops give the same result. */
  lemma {:induction false} SameKept<T>(keep: T -> bool, s: seq<T>, t: seq<T>)
    requires |s| <= |t| && (forall i :: |s| <= i < |t| ==> !keep(t[i]))
    requires forall i :: 0 <= i < |s| ==> s[i] == t[i] || (!keep(s[i]) && !keep(t[i]))
    ensures Filter(keep, s) == Filter(keep, t)
    decreases |t|
  {
    if t != [] {
      var n := |t| - 1;
      if |s| == |t| {
        SameKept(keep, s[..n], t[..n]);
      } else {
        SameKept(keep, s, t[..n]);
      }
    }
  }

  lemma {:induction false} GroupHas(m: Matching, cores: seq<Core>, id: int, i: nat)
    requires i < |cores| && m(id, cores[i].id)
    ensures Group(m, cores, id) != [] && cores[i] in Group(m, cores, id)
  {
    var n := |cores| - 1;
    if i < n {
      GroupHas(m, cores[..n], id, i);
    }
  }

  /** `put` is `docs` with the document `id` assigned. */
  ghost predicate Assigns(docs: seq<Entry>, put: seq<Entry>, id: int) {
    && |docs| <= |put|
    && (forall k :: 0 <= k < |docs| ==> put[k] == docs[k] || (docs[k].core.id == id && put[k].core.id == id))
    && (forall k :: |docs| <= k < |put| ==> put[k].core.id == id)
  }

  /** Outside the group of the saved document nothing changes. */
  lemma {:induction false} UnmatchedKeeps(m: Matching, docs: seq<Entry>, put: seq<Entry>, saved: int, i: nat)
    requires Assigns(docs, put, saved) && i < |docs| && put[i] == docs[i] && AgreesAt(m, docs, i)
    requires !m(docs[i].core.id, saved)
    ensures AgreesAt(m, put, i)
  {
    SameKept(Matches(m, docs[i].core.id), Cores(docs), Cores(put));
  }

  lemma {:induction false} MatchedAgrees(m: Matching, docs: seq<Entry>, id: int, i: nat)
    requires IsMatching(m) && i < |docs| && m(id, docs[i].core.id)
    requires forall k :: 0 <= k < |docs| ==> (m(id, docs[k].core.id) <==> m(docs[i].core.id, docs[k].core.id))
    ensures AgreesAt(m, Rewrite(m, docs, id), i)
  {
    var cores := Cores(docs);
    GroupHas(m, cores, id, i);
    SameFilter(Matches(m, id), Matches(m, docs[i].core.id), cores);
  }

  /** Where matching is transitive, a save keeps the index consistent. */
  lemma {:induction false} SaveKeepsConsistent(m: Matching, docs: seq<Entry>, save: Save, ids: set<int>)
    requires IsMatching(m) && Consistent(m, docs) && TransitiveOn(m, ids)
    requires save.id in ids && forall i :: 0 <= i < |docs| ==> docs[i].core.id in ids
    ensures Consistent(m, Apply(m, docs, save))
    ensures forall i :: 0 <= i < |Apply(m, docs, save)| ==> Apply(m, docs, save)[i].core.id in ids
  {
    var e := NewEntry(docs, save);
    var put := Put(docs, e);
    var r := Apply(m, docs, save);
    PutIsUpdate(docs, e);
    assert forall i :: 0 <= i < |put| ==> put[i].core.id in ids && r[i].core == put[i].core;
    forall i | 0 <= i < |r| ensures AgreesAt(m, r, i) {
      if m(save.id, put[i].core.id) {
        forall k | 0 <= k < |put|
          ensures m(save.id, put[k].core.id) <==> m(put[i].core.id, put[k].core.id) {}
        MatchedAgrees(m, put, save.id, i);
      } else {
        assert put[i] == docs[i] && !m(docs[i].core.id, save.id);
        assert AgreesAt(m, docs, i);
        UnmatchedKeeps(m, docs, put, save.id, i);
        assert r[i] == put[i];
      }
    }
  }

  ghost predicate SavesOn(saves: seq<Save>, ids: set<int>) {
    forall i :: 0 <= i < |saves| ==> saves[i].id in ids
  }

  lemma {:induction false} AlwaysConsistent(m: Matching, saves: seq<Save>, ids: set<int>)
    requires IsMatching(m) && TransitiveOn(m, ids) && SavesOn(saves, ids)
    ensures Consistent(m, After(m, saves))
    ensures forall i :: 0 <= i < |After(m, saves)| ==> After(m, saves)[i].core.id in ids
  {
    if saves != [] {
      var n := |saves| - 1;
      AlwaysConsistent(m, saves[..n], ids);
      SaveKeepsConsistent(m, After(m, saves[..n]), saves[n], ids);
    }
  }

  /** A member of the group as its relations should tell: canonical or pointing to the canonical one. */
  ghost predicate TellsGroup(e: Entry, group: seq<Core>)
    requires group != []
  {
    var best := Best(group).id;
    && e.relations.canonicalId == best
    && (e.relations.isCanonical <==> e.core.id == best)
    && e.relations.duplicateOf == (if e.core.id == best then None else Some(best))
    && (if e.core.id == best then IsSortedRest(e.relations.duplicates, group, best) else e.relations.duplicates == [])
  }

  lemma {:induction false} RelationsTell(e: Entry, group: seq<Core>)
    requires group != [] && DistinctIds(group) && e.relations == RelationsIn(group, e.core.id)
    ensures TellsGroup(e, group)
  {
    RestIsSorted(group, Best(group).id);
  }

  /**
   After any sequence of saves over ids on which matching is transitive, every matching
   pair points to the same canonical document, which is the first of the group by
   priority and lists exactly the rest of the group in ascending order; no other member
   calls itself canonical or lists duplicates.
   */
  lemma {:induction false} GroupsHaveOneCanonical(m: Matching, saves: seq<Save>, ids: set<int>, i: nat)
    requires IsMatching(m) && TransitiveOn(m, ids) && SavesOn(saves, ids) && i < |After(m, saves)|
    ensures var docs := After(m, saves);
      var group := Group(m, Cores(docs), docs[i].core.id);
      && group != []
      && (forall k :: 0 <= k < |group| ==> group[k] == Best(group) || Prior(Best(group), group[k]))
      && (forall k :: 0 <= k < |docs| && m(docs[i].core.id, docs[k].core.id) ==> TellsGroup(docs[k], group))
  {
    var docs := After(m, saves);
    var cores := Cores(docs);
    var id := docs[i].core.id;
    var group := Group(m, cores, id);
    AlwaysConsistent(m, saves, ids);
    GroupHas(m, cores, id, i);
    FilterDistinct(Matches(m, id), cores);
    BestIsFirst(group);
    forall k | 0 <= k < |docs| && m(id, docs[k].core.id) ensures TellsGroup(docs[k], group) {
      SameRelations(m, docs, ids, id, k);
      RelationsTell(docs[k], group);
    }
  }

  lemma {:induction false} SameRelations(m: Matching, docs: seq<Entry>, ids: set<int>, id: int, k: nat)
    requires IsMatching(m) && TransitiveOn(m, ids) && id in ids && forall i :: 0 <= i < |docs| ==> docs[i].core.id in ids
    requires k < |docs| && m(id, docs[k].core.id) && AgreesAt(m, docs, k)
    ensures Group(m, Cores(docs), id) == Group(m, Cores(docs), docs[k].core.id)
    ensures docs[k].relations == RelationsIn(Group(m, Cores(docs), id), docs[k].core.id)
  {
    SameFilter(Matches(m, id), Matches(m, docs[k].core.id), Cores(docs));
  }

  // ---------------------------------------------------------------------------
  // Without transitivity
  // ---------------------------------------------------------------------------

  /** What is listed as a duplicate says so itself. */
  ghost predicate Coherent(docs: seq<Entry>) {
    forall i, k :: 0 <= i < |docs| && 0 <= k < |docs| && docs[k].core.id in docs[i].relations.duplicates ==>
      docs[k].relations.duplicateOf == Some(docs[i].core.id)
  }

  lemma {:induction false} ListedIsInGroup(m: Matching, saves: seq<Save>, ids: set<int>, i: nat, k: nat)
    requires IsMatching(m) && TransitiveOn(m, ids) && SavesOn(saves, ids)
    requires i < |After(m, saves)| && k < |After(m, saves)|
    requires After(m, saves)[k].core.id in After(m, saves)[i].relations.duplicates
    ensures After(m, saves)[k].relations.duplicateOf == Some(After(m, saves)[i].core.id)
  {
    var docs := After(m, saves);
    var cores := Cores(docs);
    var group := Group(m, cores, docs[i].core.id);
    GroupsHaveOneCanonical(m, saves, ids, i);
    AlwaysConsistent(m, saves, ids);
    FilterDistinct(Matches(m, docs[i].core.id), cores);
    var c :| c in group && c.id == docs[k].core.id;
    assert m(docs[i].core.id, docs[k].core.id);
  }

  lemma {:induction false} AfterMore(m: Matching, saves: seq<Save>, save: Save)
    ensures After(m, saves + [save]) == Apply(m, After(m, saves), save)
  {
    assert (saves + [save])[..|saves|] == saves;
  }

  lemma {:induction false} AfterOne(m: Matching, save: Save)
    ensures After(m, [save]) == Apply(m, [], save)
  {
    assert [save][..0] == [];
  }

  /** The source rank of a document of no particular source. */
  const PlainRank := 10

  /** Three documents, the first matching the second and the second the third, saved in this order. */
  lemma {:induction false} ChainBreaks(m: Matching, a: int, b: int, c: int)
    requires IsMatching(m) && m(a, b) && m(b, c) && !m(a, c)
    ensures !Coherent(After(m, [Save(a, PlainRank, 1)] + [Save(b, PlainRank, 2)] + [Save(c, PlainRank, 3)]))
  {
    var sa, sb, sc := Save(a, PlainRank, 1), Save(b, PlainRank, 2), Save(c, PlainRank, 3);
    var d1 := Apply(m, [], sa);
    var d2 := Apply(m, d1, sb);
    AfterOne(m, sa);
    AfterMore(m, [sa], sb);
    AfterMore(m, [sa] + [sb], sc);
    FirstSave(m, sa);
    SecondSave(m, d1, sb);
    ThirdSave(m, d2, sc);
    Incoherent(Apply(m, d2, sc), b);
  }

  lemma {:induction false} Incoherent(docs: seq<Entry>, b: int)
    requires |docs| == 3 && docs[0].relations.duplicates == [b]
    requires docs[1].core.id == b && docs[1].relations.duplicateOf == None
    ensures !Coherent(docs)
  {
    assert docs[1].core.id in docs[0].relations.duplicates;
  }

  lemma {:induction false} OneCore(e: Entry)
    ensures Cores([e]) == [e.core]
  {
  }

  lemma {:induction false} RewriteHead(m: Matching, docs: seq<Entry>, id: int, group: seq<Core>)
    requires docs != [] && m(id, docs[0].core.id) && group == Group(m, Cores(docs), id) && group != []
    ensures Rewrite(m, docs, id)[0] == docs[0].(relations := RelationsIn(group, docs[0].core.id))
  {
  }

  lemma {:induction false} RewriteOne(m: Matching, e: Entry, id: int)
    requires m(id, e.core.id)
    ensures Rewrite(m, [e], id) == [e.(relations := RelationsIn([e.core], e.core.id))]
  {
    OneCore(e);
    FilterOne(Matches(m, id), e.core);
    RewriteHead(m, [e], id, [e.core]);
    assert |Rewrite(m, [e], id)| == 1;
  }

  lemma {:induction false} FirstSave(m: Matching, s: Save)
    requires IsMatching(m)
    ensures Apply(m, [], s) == [Entry(Core(s.id, s.sourceRank, s.now), s.now, 1, SelfRelations(s.id))]
  {
    var e := NewEntry([], s);
    assert Put([], e) == [e];
    RewriteOne(m, e, s.id);
    AloneInGroup(e.core);
  }

  lemma {:induction false} FilterOne<T>(keep: T -> bool, x: T)
    ensures Filter(keep, [x]) == if keep(x) then [x] else []
  {
    assert [x][..0] == [];
  }

  lemma {:induction false} FilterTwo<T>(keep: T -> bool, x: T, y: T)
    ensures Filter(keep, [x, y]) == (if keep(x) then [x] else []) + (if keep(y) then [y] else [])
  {
    assert [x, y][..1] == [x];
    FilterOne(keep, x);
  }

  lemma {:induction false} FilterThree<T>(keep: T -> bool, x: T, y: T, z: T)
    ensures Filter(keep, [x, y, z]) == Filter(keep, [x, y]) + (if keep(z) then [z] else [])
  {
    assert [x, y, z][..2] == [x, y];
  }

  lemma {:induction false} AloneInGroup(c: Core)
    ensures RelationsIn([c], c.id) == SelfRelations(c.id)
  {
    FilterOne((d: Core) => d.id != c.id, c);
  }

  lemma {:induction false} PairInGroup(c: Core, d: Core)
    requires Prior(c, d) && c.id != d.id
    ensures RelationsIn([c, d], c.id) == Relations(true, c.id, None, [d.id])
    ensures RelationsIn([c, d], d.id) == Relations(false, c.id, Some(c.id), [])
  {
    assert [c, d][..1] == [c];
    assert Best([c, d]) == c;
    FilterTwo((x: Core) => x.id != c.id, c, d);
    assert IdsExcept([c, d], c.id) == [d.id];
    assert SortIds([d.id]) == [d.id] by { assert [d.id][1..] == []; }
  }

  lemma {:induction false} SecondSave(m: Matching, docs: seq<Entry>, s: Save)
    requires IsMatching(m) && |docs| == 1 && docs[0].core.id != s.id && m(docs[0].core.id, s.id)
    requires docs[0].core.sourceRank == s.sourceRank && docs[0].core.firstSeen < s.now
    ensures var r := Apply(m, docs, s);
      && |r| == 2 && r[0].core == docs[0].core && r[1].core == Core(s.id, s.sourceRank, s.now)
      && r[0].relations == Relations(true, docs[0].core.id, None, [s.id])
  {
    var e := NewEntry(docs, s);
    assert docs == [docs[0]] && docs[1..] == [];
    assert Lookup(docs, s.id) == None by { assert Lookup([], s.id) == None; }
    assert Put(docs, e) == [docs[0], e];
    FilterTwo(Matches(m, s.id), docs[0].core, e.core);
    assert Cores([docs[0], e]) == [docs[0].core, e.core];
    PairInGroup(docs[0].core, e.core);
  }

  lemma {:induction false} ThirdSave(m: Matching, docs: seq<Entry>, s: Save)
    requires IsMatching(m) && |docs| == 2 && docs[0].core.id != s.id && docs[1].core.id != s.id
    requires !m(s.id, docs[0].core.id) && m(s.id, docs[1].core.id)
    requires docs[1].core.sourceRank == s.sourceRank && docs[1].core.firstSeen < s.now
    ensures var r := Apply(m, docs, s);
      && |r| == 3 && r[0] == docs[0] && r[1].core == docs[1].core
      && r[1].relations == Relations(true, docs[1].core.id, None, [s.id])
  {
    var e := NewEntry(docs, s);
    assert docs == [docs[0], docs[1]] && docs[1..] == [docs[1]] && docs[1..][1..] == [];
    assert Lookup(docs, s.id) == None by {
      assert Lookup([], s.id) == None;
      assert Lookup(docs[1..], s.id) == None;
    }
    assert Put(docs, e) == [docs[0], docs[1], e] by {
      assert Put(docs[1..], e) == [docs[1], e] by { assert Put([], e) == [e]; }
    }
    FilterTwo(Matches(m, s.id), docs[0].core, docs[1].core);
    FilterThree(Matches(m, s.id), docs[0].core, docs[1].core, e.core);
    assert Cores([docs[0], docs[1], e]) == [docs[0].core, docs[1].core, e.core];
    PairInGroup(docs[1].core, e.core);
  }

  lemma {:induction false} TransitiveIsCoherent(m: Matching, saves: seq<Save>, ids: set<int>)
    requires IsMatching(m) && TransitiveOn(m, ids) && SavesOn(saves, ids)
    ensures Coherent(After(m, saves))
  {
    var docs := After(m, saves);
    forall i, k | 0 <= i < |docs| && 0 <= k < |docs| && docs[k].core.id in docs[i].relations.duplicates
      ensures docs[k].relations.duplicateOf == Some(docs[i].core.id)
    {
      ListedIsInGroup(m, saves, ids, i, k);
    }
  }

  lemma {:induction false} ThreeSavesOn(sa: Save, sb: Save, sc: Save, ids: set<int>)
    requires sa.id in ids && sb.id in ids && sc.id in ids
    ensures SavesOn([sa] + [sb] + [sc], ids)
  {
  }

  lemma {:induction false} IntransitiveBreaks(m: Matching, ids: set<int>) returns (saves: seq<Save>)
    requires IsMatching(m) && !TransitiveOn(m, ids)
    ensures SavesOn(saves, ids) && !Coherent(After(m, saves))
  {
    var a, b, c :| a in ids && b in ids && c in ids && m(a, b) && m(b, c) && !m(a, c);
    ChainBreaks(m, a, b, c);
    ThreeSavesOn(Save(a, PlainRank, 1), Save(b, PlainRank, 2), Save(c, PlainRank, 3), ids);
    saves := [Save(a, PlainRank, 1)] + [Save(b, PlainRank, 2)] + [Save(c, PlainRank, 3)];
  }

  /**
   The relations stay coherent over every sequence of saves of these documents exactly
   when matching is transitive among them.
   */
  lemma {:induction false} CoherentIffTransitive(m: Matching, ids: set<int>)
    requires IsMatching(m)
    ensures (forall saves :: SavesOn(saves, ids) ==> Coherent(After(m, saves))) <==> TransitiveOn(m, ids)
  {
    if TransitiveOn(m, ids) {
      forall saves | SavesOn(saves, ids) ensures Coherent(After(m, saves)) {
        TransitiveIsCoherent(m, saves, ids);
      }
    } else {
      var saves := IntransitiveBreaks(m, ids);
    }
  }
}
