/**
 Matching the URLs a model cites against the pages that were fetched: canonical forms,
 the two maps the matcher fills, and what its result counts.
 */
module Citations {
  import opened Wrappers

  // ---------------------------------------------------------------------------
  // The canonical form
  // ---------------------------------------------------------------------------

  /** A parsed URL. */
  datatype Url = Url(protocol: string, host: string, path: string, parameters: seq<(string, string)>, hash: string)

  /** Parsing, formatting and recognising tracking parameters are parameters of the model. */
  datatype UrlSyntax = UrlSyntax(parse: string -> Option<Url>, format: Url -> string, tracking: string -> bool)

  function StripSlashes(path: string): (r: string)
    ensures r != [] ==> r[|r| - 1] != '/'
  {
    if path != [] && path[|path| - 1] == '/' then StripSlashes(path[..|path| - 1]) else path
  }

  /** Assigning an empty path to an http URL leaves the path "/". */
  function CanonicalPath(path: string): string {
    if |path| <= 1 then path
    else if StripSlashes(path) == [] then "/"
    else StripSlashes(path)
  }

  function WithoutTracking(tracking: string -> bool, parameters: seq<(string, string)>): (r: seq<(string, string)>)
    ensures forall k :: 0 <= k < |r| ==> !tracking(r[k].0)
  {
    if parameters == [] then []
    else (if tracking(parameters[0].0) then [] else [parameters[0]]) + WithoutTracking(tracking, parameters[1..])
  }

  function Canonical(syntax: UrlSyntax, url: Url): Option<Url> {
    if url.protocol != "http:" && url.protocol != "https:" then None
    else
      Some(url.(hash := "", parameters := WithoutTracking(syntax.tracking, url.parameters), path := CanonicalPath(url.path)))
  }

  function CanonicalEvidenceUrl(syntax: UrlSyntax, raw: string): Option<string> {
    match syntax.parse(raw)
    case None => None
    case Some(url) =>
      match Canonical(syntax, url)
      case None => None
      case Some(canonical) => Some(syntax.format(canonical))
  }

  lemma {:induction false} NothingTracked(tracking: string -> bool, parameters: seq<(string, string)>)
    requires forall k :: 0 <= k < |parameters| ==> !tracking(parameters[k].0)
    ensures WithoutTracking(tracking, parameters) == parameters
  {
    if parameters != [] {
      assert !tracking(parameters[0].0);
      NothingTracked(tracking, parameters[1..]);
    }
  }

  lemma {:induction false} CanonicalPathIsFinal(path: string)
    ensures CanonicalPath(CanonicalPath(path)) == CanonicalPath(path)
  {
    var r := StripSlashes(path);
    if r != [] {
      assert StripSlashes(r) == r;
    }
  }

  /** The canonical form of what `raw` parses to is read back as it was written. */
  predicate ReadsBack(syntax: UrlSyntax, raw: string) {
    syntax.parse(raw).Some? ==>
      var canonical := Canonical(syntax, syntax.parse(raw).value);
      canonical.Some? ==> syntax.parse(syntax.format(canonical.value)) == canonical
  }

  /** A canonical URL is its own canonical form, provided parsing reads it back. */
  lemma {:induction false} CanonicalIsIdempotent(syntax: UrlSyntax, raw: string, canonical: string)
    requires ReadsBack(syntax, raw)
    requires CanonicalEvidenceUrl(syntax, raw) == Some(canonical)
    ensures CanonicalEvidenceUrl(syntax, canonical) == Some(canonical)
  {
    var url := syntax.parse(raw).value;
    CanonicalPathIsFinal(url.path);
    NothingTracked(syntax.tracking, WithoutTracking(syntax.tracking, url.parameters));
    assert syntax.parse(canonical) == Canonical(syntax, url);
  }

  // ---------------------------------------------------------------------------
  // Matching citations
  // ---------------------------------------------------------------------------

  datatype ToolOutcome = SuccessWithContent | SuccessEmpty | HttpError | TransportError | Timeout | ProtocolError | Cancelled

  datatype Page = Page(outcome: ToolOutcome, requestedUrl: string, finalUrl: string)

  /** The canonical form of a raw URL, as a function. */
  type Canon = string -> Option<string>

  /** The canonical key of a URL; an empty string counts as none. */
  function Key(canon: Canon, raw: string): Option<string> {
    if canon(raw) == Some("") then None else canon(raw)
  }

  function Shown(page: Page): string {
    if page.finalUrl != "" then page.finalUrl else page.requestedUrl
  }

  function Put(m: map<string, string>, key: Option<string>, value: string): map<string, string> {
    if key.Some? then m[key.value := value] else m
  }

  /** The pages with content, by the canonical forms of both their URLs; later pages overwrite. */
  function Fetched(canon: Canon, pages: seq<Page>): map<string, string> {
    if pages == [] then map[]
    else
      var before := Fetched(canon, pages[..|pages| - 1]);
      var page := pages[|pages| - 1];
      if page.outcome != SuccessWithContent then before
      else Put(Put(before, Key(canon, page.requestedUrl), Shown(page)), Key(canon, page.finalUrl), Shown(page))
  }

  predicate Matches(canon: Canon, fetched: map<string, string>, raw: string) {
    Key(canon, raw).Some? && Key(canon, raw).value in fetched && fetched[Key(canon, raw).value] != ""
  }

  /** The keys of the second map, in the order of insertion. */
  function MatchedKeys(canon: Canon, fetched: map<string, string>, cited: seq<string>): (keys: seq<string>)
    ensures forall k :: 0 <= k < |keys| ==> keys[k] in fetched
  {
    if cited == [] then []
    else
      var before := MatchedKeys(canon, fetched, cited[..|cited| - 1]);
      var raw := cited[|cited| - 1];
      if Matches(canon, fetched, raw) && Key(canon, raw).value !in before then before + [Key(canon, raw).value] else before
  }

  function MatchedUrls(canon: Canon, cited: seq<string>, pages: seq<Page>): seq<string> {
    var fetched := Fetched(canon, pages);
    var keys := MatchedKeys(canon, fetched, cited);
    seq(|keys|, k requires 0 <= k < |keys| => fetched[keys[k]])
  }

  /** `matchedFetchedEvidenceUrls`: two loops over two maps; `order` lists the keys of `matched`. */
  method MatchedFetchedEvidenceUrls(canon: Canon, cited: seq<string>, pages: seq<Page>) returns (r: seq<string>)
    ensures r == MatchedUrls(canon, cited, pages)
  {
    var fetched: map<string, string> := map[];
    var i := 0;
    while i < |pages|
      invariant 0 <= i <= |pages|
      invariant fetched == Fetched(canon, pages[..i])
    {
      var page := pages[i];
      assert pages[..i + 1][..i] == pages[..i];
      if page.outcome == SuccessWithContent {
        var requested := canon(page.requestedUrl);
        if requested.Some? && requested.value != "" {
          fetched := fetched[requested.value := Shown(page)];
        }
        var final := canon(page.finalUrl);
        if final.Some? && final.value != "" {
          fetched := fetched[final.value := Shown(page)];
        }
      }
      i := i + 1;
    }
    assert pages[..i] == pages;
    var matched: map<string, string> := map[];
    var order: seq<string> := [];
    i := 0;
    while i < |cited|
      invariant 0 <= i <= |cited|
      invariant order == MatchedKeys(canon, fetched, cited[..i])
      invariant forall key :: key in matched <==> key in order
      invariant forall key :: key in matched ==> key in fetched && matched[key] == fetched[key]
    {
      assert cited[..i + 1][..i] == cited[..i];
      var canonical := canon(cited[i]);
      if canonical.Some? && canonical.value != "" {
        if canonical.value in fetched && fetched[canonical.value] != "" {
          if canonical.value !in matched {
            order := order + [canonical.value];
          }
          matched := matched[canonical.value := fetched[canonical.value]];
        }
      }
      i := i + 1;
    }
    assert cited[..i] == cited;
    r := seq(|order|, k requires 0 <= k < |order| && order[k] in matched => matched[order[k]]);
  }

  // ---------------------------------------------------------------------------
  // What the matcher counts
  // ---------------------------------------------------------------------------

  ghost predicate FetchedUnder(canon: Canon, page: Page, key: string) {
    page.outcome == SuccessWithContent &&
    (Key(canon, page.requestedUrl) == Some(key) || Key(canon, page.finalUrl) == Some(key))
  }

  /** Page `k` is the last one filed under the key. */
  ghost predicate LastUnder(canon: Canon, pages: seq<Page>, k: nat, key: string) {
    k < |pages| && FetchedUnder(canon, pages[k], key) && forall j :: k < j < |pages| ==> !FetchedUnder(canon, pages[j], key)
  }

  lemma {:induction false} LastUnderEarlier(canon: Canon, pages: seq<Page>, k: nat, key: string)
    requires pages != [] && !FetchedUnder(canon, pages[|pages| - 1], key)
    ensures LastUnder(canon, pages[..|pages| - 1], k, key) <==> LastUnder(canon, pages, k, key)
  {
    var n := |pages| - 1;
    assert forall j :: 0 <= j < n ==> pages[..n][j] == pages[j];
    if LastUnder(canon, pages[..n], k, key) {
      forall j | k < j < |pages| ensures !FetchedUnder(canon, pages[j], key) {
        if j < n { assert !FetchedUnder(canon, pages[..n][j], key); }
      }
    }
  }

  lemma {:induction false} FetchedLast(canon: Canon, pages: seq<Page>, key: string)
    requires pages != []
    ensures var n := |pages| - 1;
      if FetchedUnder(canon, pages[n], key) then
        key in Fetched(canon, pages) && Fetched(canon, pages)[key] == Shown(pages[n])
      else
        && (key in Fetched(canon, pages) <==> key in Fetched(canon, pages[..n]))
        && (key in Fetched(canon, pages) ==> Fetched(canon, pages)[key] == Fetched(canon, pages[..n])[key])
  {
  }

  /** A key is there exactly when some page is the last one filed under it, and it shows that page. */
  lemma {:induction false} FetchedIsLast(canon: Canon, pages: seq<Page>, key: string)
    ensures key in Fetched(canon, pages) <==> exists k: nat :: LastUnder(canon, pages, k, key)
    ensures forall k: nat :: LastUnder(canon, pages, k, key) ==>
      key in Fetched(canon, pages) && Fetched(canon, pages)[key] == Shown(pages[k])
  {
    if pages != [] {
      var n := |pages| - 1;
      FetchedLast(canon, pages, key);
      if FetchedUnder(canon, pages[n], key) {
        assert LastUnder(canon, pages, n, key);
      } else {
        FetchedIsLast(canon, pages[..n], key);
        forall k: nat ensures LastUnder(canon, pages[..n], k, key) <==> LastUnder(canon, pages, k, key) {
          LastUnderEarlier(canon, pages, k, key);
        }
        forall k: nat | LastUnder(canon, pages, k, key) ensures pages[..n][k] == pages[k] {
          LastUnderEarlier(canon, pages, k, key);
        }
      }
    }
  }

  lemma {:induction false} LastExists(canon: Canon, pages: seq<Page>, key: string, k: nat) returns (last: nat)
    requires k < |pages| && FetchedUnder(canon, pages[k], key)
    ensures LastUnder(canon, pages, last, key)
    decreases |pages| - k
  {
    if j: nat :| k < j < |pages| && FetchedUnder(canon, pages[j], key) {
      last := LastExists(canon, pages, key, j);
    } else {
      last := k;
    }
  }

  /** A key is there exactly when a page with content has it, and it shows the last such page. */
  lemma {:induction false} FetchedKeys(canon: Canon, pages: seq<Page>, key: string)
    ensures key in Fetched(canon, pages) <==> exists k :: 0 <= k < |pages| && FetchedUnder(canon, pages[k], key)
    ensures key in Fetched(canon, pages) ==>
      exists k :: 0 <= k < |pages| && FetchedUnder(canon, pages[k], key) && Fetched(canon, pages)[key] == Shown(pages[k])
              && forall j :: k < j < |pages| ==> !FetchedUnder(canon, pages[j], key)
  {
    FetchedIsLast(canon, pages, key);
    if k: nat :| k < |pages| && FetchedUnder(canon, pages[k], key) {
      var last := LastExists(canon, pages, key, k);
    }
  }

  /** The distinct canonical forms of the citations that match. */
  ghost function Counted(canon: Canon, fetched: map<string, string>, cited: seq<string>): set<string> {
    set k | 0 <= k < |cited| && Matches(canon, fetched, cited[k]) :: Key(canon, cited[k]).value
  }

  lemma {:induction false} OneMore<T>(s: set<T>, x: T)
    ensures |s + {x}| == |s| + if x in s then 0 else 1
  {
    if x in s { assert s + {x} == s; }
  }

  lemma {:induction false} CountedLast(canon: Canon, fetched: map<string, string>, cited: seq<string>)
    requires cited != []
    ensures var n := |cited| - 1;
      Counted(canon, fetched, cited) ==
      Counted(canon, fetched, cited[..n]) + if Matches(canon, fetched, cited[n]) then {Key(canon, cited[n]).value} else {}
  {
    var n := |cited| - 1;
    var before, after := Counted(canon, fetched, cited[..n]), Counted(canon, fetched, cited);
    assert forall k :: 0 <= k < n ==> cited[..n][k] == cited[k];
    forall key | key in before ensures key in after {
      var k :| 0 <= k < n && Matches(canon, fetched, cited[..n][k]) && Key(canon, cited[..n][k]).value == key;
      assert Matches(canon, fetched, cited[k]);
    }
    forall key | key in after
      ensures key in before || (Matches(canon, fetched, cited[n]) && key == Key(canon, cited[n]).value)
    {
      var k :| 0 <= k <= n && Matches(canon, fetched, cited[k]) && Key(canon, cited[k]).value == key;
      if k < n { assert Matches(canon, fetched, cited[..n][k]); }
    }
  }

  lemma {:induction false} KeysAreCounted(canon: Canon, fetched: map<string, string>, cited: seq<string>)
    ensures var keys := MatchedKeys(canon, fetched, cited);
      && (forall key :: key in keys <==> key in Counted(canon, fetched, cited))
      && |keys| == |Counted(canon, fetched, cited)|
  {
    if cited == [] {
      assert Counted(canon, fetched, cited) == {};
    } else {
      var n := |cited| - 1;
      KeysAreCounted(canon, fetched, cited[..n]);
      CountedLast(canon, fetched, cited);
      if Matches(canon, fetched, cited[n]) {
        OneMore(Counted(canon, fetched, cited[..n]), Key(canon, cited[n]).value);
      }
    }
  }

  /** The length of the result is the number of distinct canonical citations, not of pages. */
  lemma {:induction false} ResultCountsCanonicalCitations(canon: Canon, cited: seq<string>, pages: seq<Page>)
    ensures |MatchedUrls(canon, cited, pages)| == |Counted(canon, Fetched(canon, pages), cited)|
  {
    KeysAreCounted(canon, Fetched(canon, pages), cited);
  }

  /** Some citation and some page with content have the same canonical URL. */
  ghost predicate CitesFetchedPage(canon: Canon, cited: seq<string>, pages: seq<Page>) {
    exists i, k :: 0 <= i < |cited| && 0 <= k < |pages| && Key(canon, cited[i]).Some?
                   && FetchedUnder(canon, pages[k], Key(canon, cited[i]).value)
  }

  lemma {:induction false} MatchMeansFetchedPage(canon: Canon, cited: seq<string>, pages: seq<Page>)
    requires |MatchedUrls(canon, cited, pages)| > 0
    ensures CitesFetchedPage(canon, cited, pages)
  {
    var fetched := Fetched(canon, pages);
    ResultCountsCanonicalCitations(canon, cited, pages);
    var counted := Counted(canon, fetched, cited);
    assert counted != {};
    var key :| key in counted;
    var i :| 0 <= i < |cited| && Matches(canon, fetched, cited[i]) && Key(canon, cited[i]).value == key;
    FetchedKeys(canon, pages, key);
    var k :| 0 <= k < |pages| && FetchedUnder(canon, pages[k], key);
    assert Key(canon, cited[i]).Some? && FetchedUnder(canon, pages[k], Key(canon, cited[i]).value);
  }

  lemma {:induction false} SubsetCount<T>(a: set<T>, b: set<T>)
    requires a <= b
    ensures |a| <= |b|
  {
    assert |b| == |a| + |b - a| by {
      assert b == a + (b - a);
    }
  }

  /** Fetching more pages never loses a matched citation. */
  lemma {:induction false} MorePagesMatchMore(canon: Canon, cited: seq<string>, pages: seq<Page>, more: seq<Page>)
    requires canon("") == None
    ensures |MatchedUrls(canon, cited, pages)| <= |MatchedUrls(canon, cited, pages + more)|
  {
    var fetched, all := Fetched(canon, pages), Fetched(canon, pages + more);
    forall key | key in fetched ensures key in all && all[key] != "" {
      FetchedKeys(canon, pages, key);
      FetchedKeys(canon, pages + more, key);
      var k :| 0 <= k < |pages| && FetchedUnder(canon, pages[k], key);
      assert (pages + more)[k] == pages[k];
    }
    assert Counted(canon, fetched, cited) <= Counted(canon, all, cited) by {
      forall raw | Matches(canon, fetched, raw) ensures Matches(canon, all, raw) {}
    }
    SubsetCount(Counted(canon, fetched, cited), Counted(canon, all, cited));
    ResultCountsCanonicalCitations(canon, cited, pages);
    ResultCountsCanonicalCitations(canon, cited, pages + more);
  }

  /** One page that was redirected, cited under both its URLs, counts twice. */
  lemma {:induction false} RedirectedPageCountsTwice(canon: Canon, from: string, to: string)
    requires Key(canon, from).Some? && Key(canon, to).Some? && Key(canon, from) != Key(canon, to) && to != ""
    ensures MatchedUrls(canon, [from, to], [Page(SuccessWithContent, from, to)]) == [to, to]
  {
    var pages := [Page(SuccessWithContent, from, to)];
    assert pages[..0] == [] && Fetched(canon, []) == map[];
    var fetched := Fetched(canon, pages);
    assert fetched == Put(Put(map[], Key(canon, from), to), Key(canon, to), to);
    assert fetched == map[Key(canon, from).value := to, Key(canon, to).value := to];
    assert [from, to][..1] == [from] && [from][..0] == [];
    assert MatchedKeys(canon, fetched, [from]) == [Key(canon, from).value];
    assert MatchedKeys(canon, fetched, [from, to]) == [Key(canon, from).value, Key(canon, to).value];
  }
}
