/**
 What the number of matched citations says about what was fetched: how it compares with
 the fetch responses behind them and with the documents that these show.
 */
module CitationCounts {
  import opened Wrappers
  import opened Citations

  // ---------------------------------------------------------------------------
  // Matches and fetch responses
  // ---------------------------------------------------------------------------

  predicate Cited(canon: Canon, cited: seq<string>, key: string) {
    exists i :: 0 <= i < |cited| && Key(canon, cited[i]) == Some(key)
  }

  /** Page `k` is the last one filed under the key and has a URL to show, so the matcher shows it for this key. */
  ghost predicate Owns(canon: Canon, pages: seq<Page>, k: nat, key: string) {
    LastUnder(canon, pages, k, key) && Shown(pages[k]) != ""
  }

  /** Page `k` stands for this key, and a citation has it. */
  ghost predicate StandsFor(canon: Canon, cited: seq<string>, pages: seq<Page>, k: nat, key: string) {
    Cited(canon, cited, key) && Owns(canon, pages, k, key)
  }

  ghost predicate IsMatched(canon: Canon, cited: seq<string>, pages: seq<Page>, k: nat) {
    exists key :: StandsFor(canon, cited, pages, k, key)
  }

  /** Page `k` stands for two different cited keys. */
  ghost predicate CitedTwice(canon: Canon, cited: seq<string>, pages: seq<Page>, k: nat) {
    exists key, other :: key != other && StandsFor(canon, cited, pages, k, key) && StandsFor(canon, cited, pages, k, other)
  }

  /** The fetch responses that the result stands for: the owners of the matched keys. */
  ghost function MatchedPages(canon: Canon, cited: seq<string>, pages: seq<Page>): set<nat> {
    set k: nat | k < |pages| && IsMatched(canon, cited, pages, k)
  }

  ghost function OneKey(canon: Canon, cited: seq<string>, pages: seq<Page>, k: nat, key: Option<string>): set<string> {
    if key.Some? && StandsFor(canon, cited, pages, k, key.value) then {key.value} else {}
  }

  /** The cited keys that page `k` stands for. */
  ghost function KeysOfPage(canon: Canon, cited: seq<string>, pages: seq<Page>, k: nat): set<string>
    requires k < |pages|
  {
    OneKey(canon, cited, pages, k, Key(canon, pages[k].requestedUrl)) +
    OneKey(canon, cited, pages, k, Key(canon, pages[k].finalUrl))
  }

  lemma {:induction false} KeysOfPageAre(canon: Canon, cited: seq<string>, pages: seq<Page>, k: nat, key: string)
    requires k < |pages|
    ensures key in KeysOfPage(canon, cited, pages, k) <==> StandsFor(canon, cited, pages, k, key)
  {
  }

  lemma {:induction false} KeysOfPageCount(canon: Canon, cited: seq<string>, pages: seq<Page>, k: nat)
    requires k < |pages|
    ensures |KeysOfPage(canon, cited, pages, k)| <= 2
    ensures KeysOfPage(canon, cited, pages, k) != {} <==> IsMatched(canon, cited, pages, k)
    ensures |KeysOfPage(canon, cited, pages, k)| > 1 <==> CitedTwice(canon, cited, pages, k)
  {
    var keys := KeysOfPage(canon, cited, pages, k);
    if key :| StandsFor(canon, cited, pages, k, key) { KeysOfPageAre(canon, cited, pages, k, key); }
    if key :| key in keys { KeysOfPageAre(canon, cited, pages, k, key); }
    if key, other :| key != other && StandsFor(canon, cited, pages, k, key) && StandsFor(canon, cited, pages, k, other) {
      KeysOfPageAre(canon, cited, pages, k, key);
      KeysOfPageAre(canon, cited, pages, k, other);
      SubsetCount({key, other}, keys);
    }
  }

  // Counting disjoint sets of at most two elements.

  ghost function Union<T>(parts: seq<set<T>>): set<T> {
    if parts == [] then {} else Union(parts[..|parts| - 1]) + parts[|parts| - 1]
  }

  ghost predicate Disjoint<T>(parts: seq<set<T>>) {
    forall i, k :: 0 <= i < k < |parts| ==> parts[i] !! parts[k]
  }

  ghost function NonEmpty<T>(parts: seq<set<T>>): set<nat> {
    set k: nat | k < |parts| && parts[k] != {}
  }

  lemma {:induction false} InUnion<T>(parts: seq<set<T>>, x: T)
    ensures x in Union(parts) <==> exists k :: 0 <= k < |parts| && x in parts[k]
  {
    if parts != [] {
      var n := |parts| - 1;
      InUnion(parts[..n], x);
      if k :| 0 <= k < n && x in parts[k] { assert x in parts[..n][k]; }
    }
  }

  lemma {:induction false} LastIsDisjoint<T>(parts: seq<set<T>>)
    requires parts != [] && Disjoint(parts)
    ensures Union(parts[..|parts| - 1]) !! parts[|parts| - 1]
  {
    var n := |parts| - 1;
    forall x | x in parts[n] ensures x !in Union(parts[..n]) {
      InUnion(parts[..n], x);
    }
  }

  lemma {:induction false} NonEmptyLast<T>(parts: seq<set<T>>)
    requires parts != []
    ensures |NonEmpty(parts)| == |NonEmpty(parts[..|parts| - 1])| + if parts[|parts| - 1] != {} then 1 else 0
  {
    var n := |parts| - 1;
    if parts[n] != {} {
      assert NonEmpty(parts) == NonEmpty(parts[..n]) + {n};
    } else {
      assert NonEmpty(parts) == NonEmpty(parts[..n]);
    }
  }

  lemma {:induction false} PartsCount<T>(parts: seq<set<T>>)
    requires Disjoint(parts) && forall k :: 0 <= k < |parts| ==> |parts[k]| <= 2
    ensures |NonEmpty(parts)| <= |Union(parts)| <= 2 * |NonEmpty(parts)|
    ensures |Union(parts)| == |NonEmpty(parts)| <==> forall k :: 0 <= k < |parts| ==> |parts[k]| <= 1
  {
    if parts == [] {
      assert NonEmpty(parts) == {};
    } else {
      var n := |parts| - 1;
      PartsCount(parts[..n]);
      LastIsDisjoint(parts);
      NonEmptyLast(parts);
      assert |Union(parts)| == |Union(parts[..n])| + |parts[n]|;
      assert parts == parts[..n] + [parts[n]];
    }
  }

  /** A matched key is a cited one for which some page stands. */
  lemma {:induction false} CountedMeans(canon: Canon, cited: seq<string>, pages: seq<Page>, key: string)
    requires key in Counted(canon, Fetched(canon, pages), cited)
    ensures exists k :: 0 <= k < |pages| && StandsFor(canon, cited, pages, k, key)
  {
    var fetched := Fetched(canon, pages);
    var i :| 0 <= i < |cited| && Matches(canon, fetched, cited[i]) && Key(canon, cited[i]).value == key;
    assert Key(canon, cited[i]) == Some(key);
    FetchedKeys(canon, pages, key);
    var k: nat :| k < |pages| && FetchedUnder(canon, pages[k], key) && fetched[key] == Shown(pages[k])
      && forall j :: k < j < |pages| ==> !FetchedUnder(canon, pages[j], key);
    assert StandsFor(canon, cited, pages, k, key);
  }

  lemma {:induction false} StandingIsCounted(canon: Canon, cited: seq<string>, pages: seq<Page>, k: nat, key: string)
    requires StandsFor(canon, cited, pages, k, key)
    ensures key in Counted(canon, Fetched(canon, pages), cited)
  {
    var fetched := Fetched(canon, pages);
    FetchedKeys(canon, pages, key);
    var j: nat :| j < |pages| && FetchedUnder(canon, pages[j], key) && fetched[key] == Shown(pages[j])
      && forall l :: j < l < |pages| ==> !FetchedUnder(canon, pages[l], key);
    assert j == k;
    var i :| 0 <= i < |cited| && Key(canon, cited[i]) == Some(key);
    assert Matches(canon, fetched, cited[i]);
  }

  ghost function KeysByPage(canon: Canon, cited: seq<string>, pages: seq<Page>): (parts: seq<set<string>>)
    ensures |parts| == |pages| && forall k :: 0 <= k < |pages| ==> parts[k] == KeysOfPage(canon, cited, pages, k)
  {
    seq(|pages|, k requires 0 <= k < |pages| => KeysOfPage(canon, cited, pages, k))
  }

  lemma {:induction false} KeysByPageAreDisjoint(canon: Canon, cited: seq<string>, pages: seq<Page>)
    ensures Disjoint(KeysByPage(canon, cited, pages))
  {
    forall i: nat, k: nat, key | i < k < |pages| && key in KeysOfPage(canon, cited, pages, i)
      ensures key !in KeysOfPage(canon, cited, pages, k)
    {
      KeysOfPageAre(canon, cited, pages, i, key);
      KeysOfPageAre(canon, cited, pages, k, key);
    }
  }

  lemma {:induction false} KeysByPageAreCounted(canon: Canon, cited: seq<string>, pages: seq<Page>)
    ensures Union(KeysByPage(canon, cited, pages)) == Counted(canon, Fetched(canon, pages), cited)
  {
    var parts := KeysByPage(canon, cited, pages);
    var counted := Counted(canon, Fetched(canon, pages), cited);
    forall key ensures key in Union(parts) <==> key in counted {
      InUnion(parts, key);
      if k :| 0 <= k < |parts| && key in parts[k] {
        KeysOfPageAre(canon, cited, pages, k, key);
        StandingIsCounted(canon, cited, pages, k, key);
      }
      if key in counted {
        CountedMeans(canon, cited, pages, key);
        var k :| 0 <= k < |pages| && StandsFor(canon, cited, pages, k, key);
        KeysOfPageAre(canon, cited, pages, k, key);
      }
    }
  }

  /**
   The length of the result is the number of fetch responses that it stands for exactly
   when no response stands for two cited keys; it is never more than twice that number.
   */
  lemma {:induction false} ResultCountsPagesIff(canon: Canon, cited: seq<string>, pages: seq<Page>)
    ensures var matches, owners := |MatchedUrls(canon, cited, pages)|, |MatchedPages(canon, cited, pages)|;
      && owners <= matches <= 2 * owners
      && (matches == owners <==> forall k :: 0 <= k < |pages| ==> !CitedTwice(canon, cited, pages, k))
  {
    var parts := KeysByPage(canon, cited, pages);
    forall k | 0 <= k < |pages|
      ensures |parts[k]| <= 2 && (parts[k] != {} <==> IsMatched(canon, cited, pages, k))
      ensures |parts[k]| <= 1 <==> !CitedTwice(canon, cited, pages, k)
    {
      KeysOfPageCount(canon, cited, pages, k);
    }
    KeysByPageAreDisjoint(canon, cited, pages);
    PartsCount(parts);
    assert NonEmpty(parts) == MatchedPages(canon, cited, pages);
    KeysByPageAreCounted(canon, cited, pages);
    ResultCountsCanonicalCitations(canon, cited, pages);
  }

  // ---------------------------------------------------------------------------
  // Matches and documents
  // ---------------------------------------------------------------------------

  /**
   The different documents among some URLs; `document` tells which document a shown URL
   is, for instance the URL itself or the URL without its fragment.
   */
  ghost function DocumentsOf(document: string -> string, urls: seq<string>): set<string> {
    set i | 0 <= i < |urls| :: document(urls[i])
  }

  /** The documents that were fetched with content, however often. */
  ghost function FetchedDocuments(document: string -> string, pages: seq<Page>): set<string> {
    set k | 0 <= k < |pages| && pages[k].outcome == SuccessWithContent :: document(Shown(pages[k]))
  }

  /** Two different cited keys lead to responses that show the same document. */
  ghost predicate SharesDocument(canon: Canon, document: string -> string, cited: seq<string>, pages: seq<Page>) {
    exists j: nat, k: nat, key, other ::
      && key != other && StandsFor(canon, cited, pages, j, key) && StandsFor(canon, cited, pages, k, other)
      && document(Shown(pages[j])) == document(Shown(pages[k]))
  }

  lemma {:induction false} DocumentsLast(document: string -> string, urls: seq<string>)
    requires urls != []
    ensures var n := |urls| - 1;
      DocumentsOf(document, urls) == DocumentsOf(document, urls[..n]) + {document(urls[n])}
  {
    var n := |urls| - 1;
    forall d ensures d in DocumentsOf(document, urls) <==> d in DocumentsOf(document, urls[..n]) + {document(urls[n])} {
      if i :| 0 <= i < |urls| && document(urls[i]) == d {
        if i < n { assert urls[..n][i] == urls[i]; }
      }
      if i :| 0 <= i < n && document(urls[..n][i]) == d { assert urls[i] == urls[..n][i]; }
    }
  }

  /** All entries are of different documents. */
  ghost predicate DocumentsDiffer(document: string -> string, urls: seq<string>) {
    forall i, k :: 0 <= i < k < |urls| ==> document(urls[i]) != document(urls[k])
  }

  lemma {:induction false} DifferLast(document: string -> string, urls: seq<string>)
    requires urls != []
    ensures var n := |urls| - 1;
      DocumentsDiffer(document, urls) <==>
        DocumentsDiffer(document, urls[..n]) && document(urls[n]) !in DocumentsOf(document, urls[..n])
  {
    var n := |urls| - 1;
    var init := urls[..n];
    assert forall i :: 0 <= i < n ==> init[i] == urls[i];
    if document(urls[n]) in DocumentsOf(document, init) {
      var i :| 0 <= i < |init| && document(init[i]) == document(urls[n]);
      assert document(urls[i]) == document(urls[n]);
    }
    if DocumentsDiffer(document, urls) {
      forall i, k | 0 <= i < k < |init| ensures document(init[i]) != document(init[k]) {
        assert document(urls[i]) != document(urls[k]);
      }
    }
    if DocumentsDiffer(document, init) && document(urls[n]) !in DocumentsOf(document, init) {
      forall i, k | 0 <= i < k < |urls| ensures document(urls[i]) != document(urls[k]) {
        if k == n { assert document(init[i]) in DocumentsOf(document, init); }
      }
    }
  }

  lemma {:induction false} DocumentsCount(document: string -> string, urls: seq<string>)
    ensures |DocumentsOf(document, urls)| <= |urls|
    ensures |DocumentsOf(document, urls)| == |urls| <==> DocumentsDiffer(document, urls)
  {
    if urls == [] {
      assert DocumentsOf(document, urls) == {};
    } else {
      var n := |urls| - 1;
      DocumentsCount(document, urls[..n]);
      DocumentsLast(document, urls);
      DifferLast(document, urls);
      OneMore(DocumentsOf(document, urls[..n]), document(urls[n]));
    }
  }

  /** Every entry of the result is what some response shows for a key of its own. */
  lemma {:induction false} EntryShows(canon: Canon, cited: seq<string>, pages: seq<Page>, i: nat) returns (k: nat, key: string)
    requires i < |MatchedUrls(canon, cited, pages)|
    ensures key == MatchedKeys(canon, Fetched(canon, pages), cited)[i]
    ensures StandsFor(canon, cited, pages, k, key) && MatchedUrls(canon, cited, pages)[i] == Shown(pages[k])
  {
    var fetched := Fetched(canon, pages);
    key := MatchedKeys(canon, fetched, cited)[i];
    KeysAreCounted(canon, fetched, cited);
    CountedMeans(canon, cited, pages, key);
    k :| 0 <= k < |pages| && StandsFor(canon, cited, pages, k, key);
    ShownIs(canon, cited, pages, k, key);
  }

  lemma {:induction false} ShownIs(canon: Canon, cited: seq<string>, pages: seq<Page>, k: nat, key: string)
    requires StandsFor(canon, cited, pages, k, key)
    ensures key in Fetched(canon, pages) && Fetched(canon, pages)[key] == Shown(pages[k])
  {
    FetchedKeys(canon, pages, key);
    var j: nat :| j < |pages| && FetchedUnder(canon, pages[j], key) && Fetched(canon, pages)[key] == Shown(pages[j])
      && forall l :: j < l < |pages| ==> !FetchedUnder(canon, pages[l], key);
    assert j == k;
  }

  predicate KeysApart(keys: seq<string>) {
    forall i, k :: 0 <= i < k < |keys| ==> keys[i] != keys[k]
  }

  lemma {:induction false} NewKeyIsApart(keys: seq<string>, key: string)
    requires KeysApart(keys) && key !in keys
    ensures KeysApart(keys + [key])
  {
    assert forall i :: 0 <= i < |keys| ==> keys[i] in keys;
  }

  lemma {:induction false} KeysDiffer(canon: Canon, fetched: map<string, string>, cited: seq<string>)
    ensures KeysApart(MatchedKeys(canon, fetched, cited))
  {
    if cited != [] {
      var n := |cited| - 1;
      var before := MatchedKeys(canon, fetched, cited[..n]);
      KeysDiffer(canon, fetched, cited[..n]);
      if Matches(canon, fetched, cited[n]) && Key(canon, cited[n]).value !in before {
        NewKeyIsApart(before, Key(canon, cited[n]).value);
      }
    }
  }

  /** The place of a matched key in the result. */
  lemma {:induction false} EntryOf(canon: Canon, cited: seq<string>, pages: seq<Page>, k: nat, key: string) returns (i: nat)
    requires StandsFor(canon, cited, pages, k, key)
    ensures i < |MatchedUrls(canon, cited, pages)| && MatchedKeys(canon, Fetched(canon, pages), cited)[i] == key
    ensures MatchedUrls(canon, cited, pages)[i] == Shown(pages[k])
  {
    var fetched := Fetched(canon, pages);
    StandingIsCounted(canon, cited, pages, k, key);
    KeysAreCounted(canon, fetched, cited);
    var keys := MatchedKeys(canon, fetched, cited);
    i :| 0 <= i < |keys| && keys[i] == key;
    ShownIs(canon, cited, pages, k, key);
  }

  lemma {:induction false} SharingIsRepeating(canon: Canon, document: string -> string, cited: seq<string>, pages: seq<Page>)
    ensures SharesDocument(canon, document, cited, pages) <==> !DocumentsDiffer(document, MatchedUrls(canon, cited, pages))
  {
    var urls := MatchedUrls(canon, cited, pages);
    if SharesDocument(canon, document, cited, pages) {
      var j: nat, k: nat, key, other :| key != other && StandsFor(canon, cited, pages, j, key)
        && StandsFor(canon, cited, pages, k, other) && document(Shown(pages[j])) == document(Shown(pages[k]));
      var x := EntryOf(canon, cited, pages, j, key);
      var y := EntryOf(canon, cited, pages, k, other);
      assert document(urls[x]) == document(urls[y]) && x != y;
    }
    if !DocumentsDiffer(document, urls) {
      var x: nat, y: nat :| x < y < |urls| && document(urls[x]) == document(urls[y]);
      var j, key := EntryShows(canon, cited, pages, x);
      var k, other := EntryShows(canon, cited, pages, y);
      KeysDiffer(canon, Fetched(canon, pages), cited);
      assert key != other;
    }
  }

  /**
   The length of the result is the number of different documents it shows exactly when no
   two different cited keys lead to responses that show the same document. It is never
   less, and all of these documents were fetched.
   */
  lemma {:induction false} ResultCountsDocumentsIff(canon: Canon, document: string -> string, cited: seq<string>,
                                                    pages: seq<Page>)
    ensures var urls := MatchedUrls(canon, cited, pages);
      && |DocumentsOf(document, urls)| <= |urls|
      && (|DocumentsOf(document, urls)| == |urls| <==> !SharesDocument(canon, document, cited, pages))
      && DocumentsOf(document, urls) <= FetchedDocuments(document, pages)
  {
    var urls := MatchedUrls(canon, cited, pages);
    DocumentsCount(document, urls);
    SharingIsRepeating(canon, document, cited, pages);
    forall i | 0 <= i < |urls| ensures document(urls[i]) in FetchedDocuments(document, pages) {
      var k, key := EntryShows(canon, cited, pages, i);
    }
  }

  // Any number of URLs that are redirected to one document.

  function RedirectedTo(from: seq<string>, to: string): (pages: seq<Page>)
    ensures |pages| == |from| && forall k :: 0 <= k < |from| ==> pages[k] == Page(SuccessWithContent, from[k], to)
  {
    seq(|from|, k requires 0 <= k < |from| => Page(SuccessWithContent, from[k], to))
  }

  /** All of the URLs have a key, and no two have the same. */
  predicate KeyedApart(canon: Canon, from: seq<string>) {
    && (forall k :: 0 <= k < |from| ==> Key(canon, from[k]).Some?)
    && (forall i, k :: 0 <= i < k < |from| ==> Key(canon, from[i]) != Key(canon, from[k]))
  }

  lemma {:induction false} AllMatch(canon: Canon, fetched: map<string, string>, from: seq<string>)
    requires KeyedApart(canon, from) && forall k :: 0 <= k < |from| ==> Matches(canon, fetched, from[k])
    ensures |MatchedKeys(canon, fetched, from)| == |from|
    ensures forall k :: 0 <= k < |from| ==> MatchedKeys(canon, fetched, from)[k] == Key(canon, from[k]).value
  {
    if from != [] {
      var n := |from| - 1;
      assert forall k :: 0 <= k < n ==> from[..n][k] == from[k];
      AllMatch(canon, fetched, from[..n]);
    }
  }

  /** URLs that all lead to one document give as many matches as there are URLs. */
  lemma {:induction false} OneDocumentCountsOften(canon: Canon, document: string -> string, from: seq<string>, to: string)
    requires KeyedApart(canon, from) && to != ""
    ensures var urls := MatchedUrls(canon, from, RedirectedTo(from, to));
      && |urls| == |from| && (forall k :: 0 <= k < |urls| ==> urls[k] == to)
      && DocumentsOf(document, urls) == (if from == [] then {} else {document(to)})
  {
    var pages := RedirectedTo(from, to);
    var fetched := Fetched(canon, pages);
    forall key | key in fetched ensures fetched[key] == to {
      FetchedKeys(canon, pages, key);
    }
    forall k | 0 <= k < |from| ensures Matches(canon, fetched, from[k]) {
      FetchedKeys(canon, pages, Key(canon, from[k]).value);
      assert FetchedUnder(canon, pages[k], Key(canon, from[k]).value);
    }
    AllMatch(canon, fetched, from);
    var urls := MatchedUrls(canon, from, pages);
    if from != [] { assert document(urls[0]) == document(to); }
  }
}
