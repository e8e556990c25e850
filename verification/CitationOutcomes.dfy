/**
 What becomes of a URL and of each citation: the parts of a URL that its canonical form
 keeps, and which page is shown for which citation, in which order.
 */
module CitationOutcomes {
  import opened Wrappers
  import Permutations
  import opened Citations
  import opened CitationCounts

  // ---------------------------------------------------------------------------
  // The canonical form
  // ---------------------------------------------------------------------------

  function Untracked(tracking: string -> bool): ((string, string)) -> bool {
    (parameter: (string, string)) => !tracking(parameter.0)
  }

  lemma {:induction false} WithoutTrackingLast(tracking: string -> bool, parameters: seq<(string, string)>,
                                               last: (string, string))
    ensures WithoutTracking(tracking, parameters + [last]) ==
      WithoutTracking(tracking, parameters) + if tracking(last.0) then [] else [last]
    decreases |parameters|
  {
    if parameters == [] {
      assert [] + [last] == [last] && [last][1..] == [];
    } else {
      assert (parameters + [last])[1..] == parameters[1..] + [last];
      WithoutTrackingLast(tracking, parameters[1..], last);
    }
  }

  /** The parameters that are left are the others, in order. */
  lemma {:induction false} ParametersAreFiltered(tracking: string -> bool, parameters: seq<(string, string)>)
    ensures WithoutTracking(tracking, parameters) == Permutations.Filter(Untracked(tracking), parameters)
    decreases |parameters|
  {
    if parameters != [] {
      var n := |parameters| - 1;
      ParametersAreFiltered(tracking, parameters[..n]);
      WithoutTrackingLast(tracking, parameters[..n], parameters[n]);
      assert parameters[..n] + [parameters[n]] == parameters;
    }
  }

  predicate AllSlashes(s: string) {
    forall i :: 0 <= i < |s| ==> s[i] == '/'
  }

  /** `path` is `shorter` with slashes behind it. */
  ghost predicate LosesSlashes(path: string, shorter: string) {
    shorter <= path && AllSlashes(path[|shorter|..])
  }

  lemma {:induction false} StrippedLosesSlashes(path: string)
    ensures LosesSlashes(path, StripSlashes(path))
  {
    if path != [] && path[|path| - 1] == '/' {
      StrippedLosesSlashes(path[..|path| - 1]);
    }
  }

  lemma {:induction false} NothingLeft(path: string)
    ensures StripSlashes(path) == [] <==> AllSlashes(path)
  {
    if path != [] && path[|path| - 1] == '/' {
      NothingLeft(path[..|path| - 1]);
    }
  }

  /**
   Only http and https URLs have a canonical form. It keeps protocol and host, drops the
   fragment and the tracking parameters, and a path of more than one character loses the
   slashes at its end; a path of nothing but slashes becomes one.
   */
  lemma {:induction false} CanonicalMeans(syntax: UrlSyntax, url: Url)
    ensures Canonical(syntax, url).Some? <==> url.protocol == "http:" || url.protocol == "https:"
    ensures Canonical(syntax, url).Some? ==>
      var c := Canonical(syntax, url).value;
      && c.protocol == url.protocol && c.host == url.host && c.hash == ""
      && c.parameters == Permutations.Filter(Untracked(syntax.tracking), url.parameters)
      && (|url.path| <= 1 ==> c.path == url.path)
      && (|url.path| > 1 && AllSlashes(url.path) ==> c.path == "/")
      && (|url.path| > 1 && !AllSlashes(url.path) ==>
            LosesSlashes(url.path, c.path) && c.path != "" && c.path[|c.path| - 1] != '/')
  {
    ParametersAreFiltered(syntax.tracking, url.parameters);
    StrippedLosesSlashes(url.path);
    NothingLeft(url.path);
  }

  // ---------------------------------------------------------------------------
  // The citations in order
  // ---------------------------------------------------------------------------

  /** Citation `p` has the key of result `i`, and no citation before it has. */
  ghost predicate FirstWith(canon: Canon, fetched: map<string, string>, cited: seq<string>, key: string, p: nat) {
    && p < |cited| && Matches(canon, fetched, cited[p]) && Key(canon, cited[p]) == Some(key)
    && forall q :: 0 <= q < p ==> !(Matches(canon, fetched, cited[q]) && Key(canon, cited[q]) == Some(key))
  }

  predicate Increasing(at: seq<nat>) {
    forall i, k :: 0 <= i < k < |at| ==> at[i] < at[k]
  }

  ghost predicate InOrder(canon: Canon, fetched: map<string, string>, cited: seq<string>, keys: seq<string>, at: seq<nat>) {
    && |at| == |keys| && Increasing(at)
    && (forall i :: 0 <= i < |at| ==> FirstWith(canon, fetched, cited, keys[i], at[i]))
    && (forall p :: 0 <= p < |cited| && Matches(canon, fetched, cited[p]) ==> Key(canon, cited[p]).value in keys)
  }

  lemma {:induction false} FirstStays(canon: Canon, fetched: map<string, string>, cited: seq<string>, more: string, key: string,
                                      p: nat)
    requires FirstWith(canon, fetched, cited, key, p)
    ensures FirstWith(canon, fetched, cited + [more], key, p)
  {
  }

  lemma {:induction false} NextInOrder(canon: Canon, fetched: map<string, string>, cited: seq<string>, raw: string,
                                       keys: seq<string>, at: seq<nat>)
    requires InOrder(canon, fetched, cited, keys, at)
    ensures var all := cited + [raw];
      if Matches(canon, fetched, raw) && Key(canon, raw).value !in keys then
        InOrder(canon, fetched, all, keys + [Key(canon, raw).value], at + [|cited|])
      else InOrder(canon, fetched, all, keys, at)
  {
    var all := cited + [raw];
    forall i | 0 <= i < |at| ensures FirstWith(canon, fetched, all, keys[i], at[i]) {
      FirstStays(canon, fetched, cited, raw, keys[i], at[i]);
    }
    if Matches(canon, fetched, raw) && Key(canon, raw).value !in keys {
      assert FirstWith(canon, fetched, all, Key(canon, raw).value, |cited|);
    }
  }

  lemma {:induction false} KeysInOrder(canon: Canon, fetched: map<string, string>, cited: seq<string>) returns (at: seq<nat>)
    ensures InOrder(canon, fetched, cited, MatchedKeys(canon, fetched, cited), at)
    decreases |cited|
  {
    if cited == [] {
      at := [];
    } else {
      var n := |cited| - 1;
      var keys := MatchedKeys(canon, fetched, cited[..n]);
      at := KeysInOrder(canon, fetched, cited[..n]);
      NextInOrder(canon, fetched, cited[..n], cited[n], keys, at);
      assert cited[..n] + [cited[n]] == cited;
      if Matches(canon, fetched, cited[n]) && Key(canon, cited[n]).value !in keys { at := at + [n]; }
    }
  }

  /** Result `i` is what some page shows that was the last one fetched under the key of citation `p`. */
  ghost predicate ShowsCitation(canon: Canon, cited: seq<string>, pages: seq<Page>, i: nat, p: nat)
    requires i < |MatchedUrls(canon, cited, pages)|
  {
    p < |cited| && Key(canon, cited[p]).Some?
    && exists k: nat :: Owns(canon, pages, k, Key(canon, cited[p]).value) && MatchedUrls(canon, cited, pages)[i] == Shown(pages[k])
  }

  /**
   The results come in the order of the citations: each shows the page of a citation, in
   increasing positions, and every citation that leads to a page has the key of one of these.
   */
  lemma {:induction false} MatchesComeInOrder(canon: Canon, cited: seq<string>, pages: seq<Page>) returns (at: seq<nat>)
    ensures |at| == |MatchedUrls(canon, cited, pages)| && Increasing(at)
    ensures forall i :: 0 <= i < |at| ==> ShowsCitation(canon, cited, pages, i, at[i])
    ensures forall p, k: nat :: 0 <= p < |cited| && Key(canon, cited[p]).Some? && Owns(canon, pages, k, Key(canon, cited[p]).value) ==>
      exists i :: 0 <= i < |at| && at[i] <= p && Key(canon, cited[at[i]]) == Key(canon, cited[p])
  {
    var fetched := Fetched(canon, pages);
    var keys := MatchedKeys(canon, fetched, cited);
    at := KeysInOrder(canon, fetched, cited);
    forall i | 0 <= i < |at| ensures ShowsCitation(canon, cited, pages, i, at[i]) {
      var k, key := EntryShows(canon, cited, pages, i);
      assert FirstWith(canon, fetched, cited, keys[i], at[i]);
      assert Owns(canon, pages, k, Key(canon, cited[at[i]]).value);
    }
    forall p, k: nat | 0 <= p < |cited| && Key(canon, cited[p]).Some? && Owns(canon, pages, k, Key(canon, cited[p]).value)
      ensures exists i :: 0 <= i < |at| && at[i] <= p && Key(canon, cited[at[i]]) == Key(canon, cited[p])
    {
      var key := Key(canon, cited[p]).value;
      assert StandsFor(canon, cited, pages, k, key);
      ShownIs(canon, cited, pages, k, key);
      assert Matches(canon, fetched, cited[p]);
      var i :| 0 <= i < |keys| && keys[i] == key;
      assert FirstWith(canon, fetched, cited, keys[i], at[i]);
    }
  }
}
