/** The match rule of the evidence index and the update of the index on a save. */
module EvidenceStore {
  import opened Wrappers
  import opened JsText
  import opened Permutations
  import opened EvidenceGroups

  /** What an id is made from; an absent document number is "". */
  datatype Identity = Identity(finalUrl: string, documentNumber: string, titleKey: string)

  datatype MatchRule = NormalizedUrl | DocumentNumberAndTitle

  predicate Includes(s: string, part: string) {
    exists i :: 0 <= i <= |s| - |part| && OccursAt(s, part, i)
  }

  function ChooseMatchRule(candidate: Identity, existing: Identity): Option<MatchRule> {
    if candidate.finalUrl == existing.finalUrl then Some(NormalizedUrl)
    else if candidate.documentNumber != "" && existing.documentNumber != ""
            && candidate.documentNumber == existing.documentNumber
            && candidate.titleKey != "" && existing.titleKey != ""
            && (candidate.titleKey == existing.titleKey || Includes(candidate.titleKey, existing.titleKey)
                || Includes(existing.titleKey, candidate.titleKey))
    then Some(DocumentNumberAndTitle)
    else None
  }

  /** `part` with something before and after it. */
  ghost predicate Within(part: string, s: string) {
    exists before, after :: s == before + part + after
  }

  lemma {:induction false} IncludesIsWithin(s: string, part: string)
    ensures Includes(s, part) <==> Within(part, s)
  {
    if i :| 0 <= i <= |s| - |part| && OccursAt(s, part, i) {
      assert s == s[..i] + part + s[i + |part|..];
    }
    if before, after :| s == before + part + after {
      assert OccursAt(s, part, |before|);
    }
  }

  /**
   Two documents match by URL when they share it, and by number otherwise: a number that
   both have, and two titles one of which is within the other.
   */
  lemma {:induction false} MatchRuleMeans(a: Identity, b: Identity)
    ensures ChooseMatchRule(a, b) == Some(NormalizedUrl) <==> a.finalUrl == b.finalUrl
    ensures ChooseMatchRule(a, b) == Some(DocumentNumberAndTitle) <==>
      && a.finalUrl != b.finalUrl && a.documentNumber == b.documentNumber && |a.documentNumber| > 0
      && |a.titleKey| > 0 && |b.titleKey| > 0 && (Within(a.titleKey, b.titleKey) || Within(b.titleKey, a.titleKey))
  {
    IncludesIsWithin(a.titleKey, b.titleKey);
    IncludesIsWithin(b.titleKey, a.titleKey);
    if a.titleKey == b.titleKey { assert b.titleKey == "" + a.titleKey + ""; }
  }

  function MatchingOf(identity: int -> Identity): Matching {
    (a: int, b: int) => ChooseMatchRule(identity(a), identity(b)).Some?
  }

  lemma {:induction false} MatchingIs(identity: int -> Identity, a: int, b: int)
    ensures MatchingOf(identity)(a, b) == ChooseMatchRule(identity(a), identity(b)).Some?
  {
  }

  lemma {:induction false} RuleIsMatching(identity: int -> Identity)
    ensures IsMatching(MatchingOf(identity))
  {
    var m := MatchingOf(identity);
    forall a ensures m(a, a) {
      MatchingIs(identity, a, a);
    }
    forall a, b | m(a, b) ensures m(b, a) {
      MatchingIs(identity, a, b);
      MatchingIs(identity, b, a);
    }
  }

  /** Without document numbers only the URL counts, and matching is transitive. */
  lemma {:induction false} UrlsAloneAreTransitive(identity: int -> Identity, ids: set<int>)
    requires forall id :: id in ids ==> identity(id).documentNumber == ""
    ensures TransitiveOn(MatchingOf(identity), ids)
  {
  }

  function ChainOfTitles(): int -> Identity {
    (id: int) =>
      if id == 1 then Identity("u1", "n", "a")
      else if id == 2 then Identity("u2", "n", "ab")
      else Identity("u3", "n", "b")
  }

  /** Title containment is not transitive, so some documents with numbers end up in disagreement. */
  lemma {:induction false} TitleContainmentIsNotTransitive()
    ensures !TransitiveOn(MatchingOf(ChainOfTitles()), {1, 2, 3})
  {
    var m := MatchingOf(ChainOfTitles());
    assert "u1"[1] != "u2"[1] && "u2"[1] != "u3"[1] && "u1"[1] != "u3"[1];
    assert OccursAt("ab", "a", 0) by { assert "ab"[0..1] == "a"; }
    assert OccursAt("ab", "b", 1) by { assert "ab"[1..2] == "b"; }
    MatchingIs(ChainOfTitles(), 1, 2);
    MatchingIs(ChainOfTitles(), 2, 3);
    MatchingIs(ChainOfTitles(), 1, 3);
    assert m(1, 2) && m(2, 3);
    assert !Includes("a", "b") by { assert "a"[0..1] == "a" && "a"[0] != "b"[0]; }
    assert !Includes("b", "a") by { assert "b"[0..1] == "b"; }
    assert !m(1, 3);
  }

  /** For saves of documents without numbers, every group has one canonical document. */
  lemma {:induction false} UrlGroupsStayCoherent(identity: int -> Identity, saves: seq<Save>)
    requires forall k :: 0 <= k < |saves| ==> identity(saves[k].id).documentNumber == ""
    ensures Coherent(After(MatchingOf(identity), saves))
  {
    var ids := set k | 0 <= k < |saves| :: saves[k].id;
    RuleIsMatching(identity);
    UrlsAloneAreTransitive(identity, ids);
    TransitiveIsCoherent(MatchingOf(identity), saves, ids);
  }

  lemma {:induction false} PutLater(docs: seq<Entry>, e: Entry, i: nat)
    requires i < |docs| && docs[i].core.id != e.core.id
    ensures docs[..i] + Put(docs[i..], e) == docs[..i + 1] + Put(docs[i + 1..], e)
  {
    assert docs[i..][1..] == docs[i + 1..];
    assert docs[..i] + [docs[i]] == docs[..i + 1];
  }

  lemma {:induction false} PutHere(docs: seq<Entry>, e: Entry, i: nat)
    requires i <= |docs| && (i < |docs| ==> docs[i].core.id == e.core.id)
    ensures docs[..i] + Put(docs[i..], e) == if i < |docs| then docs[i := e] else docs + [e]
  {
    if i < |docs| {
      assert docs[i..][1..] == docs[i + 1..];
    } else {
      assert docs[i..] == [] && docs[..i] == docs;
    }
  }

  /** The index file between two saves. */
  class EvidenceIndex {
    const identity: int -> Identity
    var documents: seq<Entry>

    constructor (identity: int -> Identity)
      ensures this.identity == identity && documents == []
    {
      this.identity := identity;
      documents := [];
    }

    method AssignDocument(entry: Entry)
      modifies this
      ensures documents == Put(old(documents), entry)
    {
      var i := 0;
      assert documents[0..] == documents;
      while i < |documents| && documents[i].core.id != entry.core.id
        invariant 0 <= i <= |documents|
        invariant documents == old(documents)
        invariant Put(documents, entry) == documents[..i] + Put(documents[i..], entry)
      {
        PutLater(documents, entry, i);
        i := i + 1;
      }
      PutHere(documents, entry, i);
      if i < |documents| {
        documents := documents[i := entry];
      } else {
        documents := documents + [entry];
      }
    }

    method DuplicateGroup(id: int) returns (group: seq<Core>)
      ensures group == Group(MatchingOf(identity), Cores(documents), id)
    {
      group := [];
      ghost var keep := Matches(MatchingOf(identity), id);
      ghost var cores := Cores(documents);
      var i := 0;
      while i < |documents|
        invariant 0 <= i <= |documents|
        invariant group == Filter(keep, cores[..i])
      {
        FilterNext(keep, cores, i);
        MatchingIs(identity, id, documents[i].core.id);
        if ChooseMatchRule(identity(id), identity(documents[i].core.id)).Some? {
          group := group + [documents[i].core];
        }
        i := i + 1;
      }
      assert cores[..i] == cores;
    }

    /** Every member of the group of `id` gets new relations, in place. */
    method RewriteRelations(id: int)
      modifies this
      ensures documents == Rewrite(MatchingOf(identity), old(documents), id)
    {
      var group := DuplicateGroup(id);
      if group == [] { return; }
      var canonical := Best(group).id;
      var duplicates := SortIds(IdsExcept(group, canonical));
      ghost var m := MatchingOf(identity);
      var i := 0;
      while i < |documents|
        invariant 0 <= i <= |documents| == |old(documents)|
        invariant forall k :: 0 <= k < i ==> documents[k] == Rewrite(m, old(documents), id)[k]
        invariant forall k :: i <= k < |documents| ==> documents[k] == old(documents)[k]
      {
        var entry := documents[i];
        MatchingIs(identity, id, entry.core.id);
        if ChooseMatchRule(identity(id), identity(entry.core.id)).Some? {
          var relations := if entry.core.id == canonical then Relations(true, canonical, None, duplicates)
                           else Relations(false, canonical, Some(canonical), []);
          documents := documents[i := entry.(relations := relations)];
        }
        i := i + 1;
      }
    }

    method SaveEvidenceRecord(save: Save)
      modifies this
      ensures documents == Apply(MatchingOf(identity), old(documents), save)
    {
      AssignDocument(NewEntry(documents, save));
      RewriteRelations(save.id);
    }
  }
}
