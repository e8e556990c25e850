/**
 `rankCandidates`: rejecting, collecting term statistics, grouping by canonical URL,
 fusing ranks and sorting. Reading URLs and text, the query constraints and the lexical
 score are parameters; a canonical URL is its place in the collation order.
 */
module FusionRanker {
  import opened Wrappers
  import opened Permutations
  import opened RankFusion

  // ---------------------------------------------------------------------------
  // Candidates
  // ---------------------------------------------------------------------------

  /** The rank fields of a candidate: absent, present but no finite number, or a number. */
  datatype RankField = Missing | NotANumber | Number(value: real)

  datatype Verdict = InvalidUrl | UnresolvedWrapper | MissingText | QueryConstraint | Passed

  /** What the term statistics count: documents, documents by token, and the mean token count of a field. */
  datatype Statistics = Statistics(documents: nat, frequency: map<string, nat>, meanLength: real)

  datatype Score = Score(base: real, pageShape: real)

  /** What the ranker reads off an input candidate of type T, and its settings. */
  datatype Reading<!T> = Reading(
    canonicalUrl: T -> Option<int>,
    isWrapper: T -> bool,
    hasText: T -> bool,
    passes: T -> bool,
    provider: T -> string,
    sourceFamily: T -> string,
    rank: T -> RankField,
    tokens: T -> set<string>,
    fieldLength: T -> nat,
    score: (T, Statistics) -> Score,
    anonymous: nat -> string,
    queryHasTokens: bool,
    requestedK: Option<real>)

  const DefaultK := 60.0

  /** The requested k when it is a positive finite number. */
  function RrfK<T>(c: Reading<T>): (k: real)
    ensures k > 0.0
  {
    if c.requestedK.Some? && c.requestedK.value > 0.0 then c.requestedK.value else DefaultK
  }

  function VerdictOf<T>(c: Reading<T>, input: T): Verdict {
    if c.canonicalUrl(input).None? then InvalidUrl
    else if c.isWrapper(input) then UnresolvedWrapper
    else if !c.hasText(input) then MissingText
    else if !c.passes(input) then QueryConstraint
    else Passed
  }

  /** A candidate that passed, with its occurrence; a missing rank is the input position plus one. */
  datatype Pending<T> = Pending(input: T, url: int, occurrence: Occurrence)

  function PendingOf<T>(c: Reading<T>, input: T, index: nat): Pending<T> {
    var url := c.canonicalUrl(input);
    var rank := match c.rank(input)
                case Missing => Some((index + 1) as real)
                case NotANumber => None
                case Number(value) => Some(value);
    Pending(input, if url.Some? then url.value else 0, Occurrence(c.provider(input), c.sourceFamily(input), rank))
  }

  /** The inputs that pass, in order. */
  function Collect<T>(c: Reading<T>, inputs: seq<T>): (r: seq<Pending<T>>)
    ensures |r| <= |inputs|
  {
    if inputs == [] then []
    else
      var n := |inputs| - 1;
      Collect(c, inputs[..n]) + if VerdictOf(c, inputs[n]) == Passed then [PendingOf(c, inputs[n], n)] else []
  }

  function CountVerdict<T>(c: Reading<T>, inputs: seq<T>, verdict: Verdict): nat {
    if inputs == [] then 0
    else
      var n := |inputs| - 1;
      CountVerdict(c, inputs[..n], verdict) + if VerdictOf(c, inputs[n]) == verdict then 1 else 0
  }

  // ---------------------------------------------------------------------------
  // Term statistics
  // ---------------------------------------------------------------------------

  predicate HasUrl<T>(items: seq<Pending<T>>, url: int) {
    exists i :: 0 <= i < |items| && items[i].url == url
  }

  /** The first pending candidate of each URL. */
  function Documents<T>(pending: seq<Pending<T>>): seq<Pending<T>> {
    if pending == [] then []
    else
      var n := |pending| - 1;
      var before := Documents(pending[..n]);
      if HasUrl(before, pending[n].url) then before else before + [pending[n]]
  }

  function Containing<T>(c: Reading<T>, token: string): Pending<T> -> int {
    (item: Pending<T>) => if token in c.tokens(item.input) then 1 else 0
  }

  function Length<T>(c: Reading<T>): Pending<T> -> int {
    (item: Pending<T>) => c.fieldLength(item.input)
  }

  /** How many documents contain each token that occurs. */
  function Frequencies<T>(c: Reading<T>, documents: seq<Pending<T>>): (r: map<string, nat>)
  {
    if documents == [] then map[]
    else
      var n := |documents| - 1;
      CountTokens(Frequencies(c, documents[..n]), c.tokens(documents[n].input))
  }

  /** One more for each of the tokens. */
  function CountTokens(frequency: map<string, nat>, tokens: set<string>): map<string, nat> {
    map token | token in frequency.Keys + tokens ::
      (if token in frequency then frequency[token] else 0) + (if token in tokens then 1 else 0)
  }

  function StatisticsOf<T>(c: Reading<T>, documents: seq<Pending<T>>): Statistics {
    if documents == [] then Statistics(1, map[], 1.0)
    else Statistics(|documents|, Frequencies(c, documents), (Total(Length(c), documents) as real) / (|documents| as real))
  }

  // ---------------------------------------------------------------------------
  // Groups
  // ---------------------------------------------------------------------------

  datatype Scored<T> = Scored(input: T, url: int, score: Score)

  datatype Group<T> = Group(representative: Scored<T>, occurrences: seq<Occurrence>)

  function ScoredOf<T>(c: Reading<T>, item: Pending<T>, statistics: Statistics): Scored<T> {
    Scored(item.input, item.url, c.score(item.input, statistics))
  }

  /** Kept unless the query has tokens and nothing but the page shape speaks for the candidate. */
  predicate IsRelevant<T>(c: Reading<T>, statistics: Statistics, input: T) {
    var score := c.score(input, statistics);
    !(c.queryHasTokens && score.base - score.pageShape <= 0.0)
  }

  function Relevant<T>(c: Reading<T>, statistics: Statistics): Pending<T> -> bool {
    (item: Pending<T>) => IsRelevant(c, statistics, item.input)
  }

  function FindGroup<T>(groups: seq<Group<T>>, url: int): (r: Option<nat>)
    ensures r.Some? ==> r.value < |groups| && groups[r.value].representative.url == url
    ensures r.None? ==> forall i :: 0 <= i < |groups| ==> groups[i].representative.url != url
  {
    if groups == [] then None
    else
      var n := |groups| - 1;
      if groups[n].representative.url == url then Some(n) else FindGroup(groups[..n], url)
  }

  function AddToGroup<T>(group: Group<T>, scored: Scored<T>, occurrence: Occurrence): Group<T> {
    Group(if scored.score.base > group.representative.score.base then scored else group.representative,
          group.occurrences + [occurrence])
  }

  function AddItem<T>(groups: seq<Group<T>>, scored: Scored<T>, occurrence: Occurrence): seq<Group<T>> {
    match FindGroup(groups, scored.url)
    case None => groups + [Group(scored, [occurrence])]
    case Some(i) => groups[i := AddToGroup(groups[i], scored, occurrence)]
  }

  /** The groups in the order in which their URLs first appear. */
  function GroupAll<T>(c: Reading<T>, statistics: Statistics, items: seq<Pending<T>>): (r: seq<Group<T>>)
    ensures |r| <= |items|
  {
    if items == [] then []
    else
      var n := |items| - 1;
      AddItem(GroupAll(c, statistics, items[..n]), ScoredOf(c, items[n], statistics), items[n].occurrence)
  }

  // ---------------------------------------------------------------------------
  // The ranking
  // ---------------------------------------------------------------------------

  datatype Candidate<T> = Candidate(input: T, url: int, score: real, base: real, fusion: Fusion<string>)

  function Accept<T>(c: Reading<T>, group: Group<T>): Candidate<T>
  {
    var fusion := Fuse(c.anonymous, group.occurrences, RrfK(c));
    Candidate(group.representative.input, group.representative.url,
              group.representative.score.base + fusion.rrfScore, group.representative.score.base, fusion)
  }

  function Accepting<T>(c: Reading<T>): Group<T> -> Candidate<T> {
    (group: Group<T>) => Accept(c, group)
  }

  function AcceptAll<T>(c: Reading<T>, groups: seq<Group<T>>): seq<Candidate<T>> {
    Map(Accepting(c), groups)
  }

  /** The comparator: higher score, then higher base score, then the smaller URL. */
  predicate Precedes<T>(a: Candidate<T>, b: Candidate<T>) {
    a.score > b.score || (a.score == b.score && (a.base > b.base || (a.base == b.base && a.url < b.url)))
  }

  function Insert<T>(x: Candidate<T>, s: seq<Candidate<T>>): (r: seq<Candidate<T>>)
    ensures |r| == |s| + 1
  {
    if s == [] || !Precedes(s[0], x) then [x] + s else [s[0]] + Insert(x, s[1..])
  }

  function Sort<T>(s: seq<Candidate<T>>): (r: seq<Candidate<T>>)
    ensures |r| == |s|
  {
    if s == [] then [] else Insert(s[0], Sort(s[1..]))
  }

  datatype Rejected = Rejected(invalid: nat, wrapper: nat, quality: nat, constraint: nat, relevance: nat, duplicate: nat)

  datatype Ranking<T> = Ranking(results: seq<Candidate<T>>, rejected: Rejected)

  function StatisticsFor<T>(c: Reading<T>, pending: seq<Pending<T>>): Statistics {
    StatisticsOf(c, Documents(pending))
  }

  function RelevantItems<T>(c: Reading<T>, pending: seq<Pending<T>>): seq<Pending<T>> {
    Filter(Relevant(c, StatisticsFor(c, pending)), pending)
  }

  function GroupsOf<T>(c: Reading<T>, pending: seq<Pending<T>>): seq<Group<T>> {
    GroupAll(c, StatisticsFor(c, pending), RelevantItems(c, pending))
  }

  function Rank<T>(c: Reading<T>, inputs: seq<T>): Ranking<T>
  {
    var pending := Collect(c, inputs);
    Ranking(
      Sort(AcceptAll(c, GroupsOf(c, pending))),
      Rejected(CountVerdict(c, inputs, InvalidUrl), CountVerdict(c, inputs, UnresolvedWrapper),
               CountVerdict(c, inputs, MissingText), CountVerdict(c, inputs, QueryConstraint),
               |pending| - |RelevantItems(c, pending)|,
               |RelevantItems(c, pending)| - |GroupsOf(c, pending)|))
  }

  // ---------------------------------------------------------------------------
  // Accounting
  // ---------------------------------------------------------------------------

  lemma {:induction false} VerdictsAddUp<T>(c: Reading<T>, inputs: seq<T>)
    ensures |inputs| == |Collect(c, inputs)| + CountVerdict(c, inputs, InvalidUrl)
      + CountVerdict(c, inputs, UnresolvedWrapper) + CountVerdict(c, inputs, MissingText)
      + CountVerdict(c, inputs, QueryConstraint)
  {
    if inputs != [] {
      VerdictsAddUp(c, inputs[..|inputs| - 1]);
    }
  }

  /** Every input is a result or is counted in exactly one bucket. */
  lemma {:induction false} EveryInputIsCountedOnce<T>(c: Reading<T>, inputs: seq<T>)
    ensures var r := Rank(c, inputs);
      |inputs| == |r.results| + r.rejected.invalid + r.rejected.wrapper + r.rejected.quality
        + r.rejected.constraint + r.rejected.relevance + r.rejected.duplicate
  {
    VerdictsAddUp(c, inputs);
  }

  // ---------------------------------------------------------------------------
  // The order of the results
  // ---------------------------------------------------------------------------

  predicate StrictlyOrdered<T>(s: seq<Candidate<T>>) {
    forall i, j :: 0 <= i < j < |s| ==> Precedes(s[i], s[j])
  }

  predicate DistinctUrls<T>(s: seq<Candidate<T>>) {
    forall i, j :: 0 <= i < j < |s| ==> s[i].url != s[j].url
  }

  lemma {:induction false} InsertKeepsItems<T>(x: Candidate<T>, s: seq<Candidate<T>>)
    ensures multiset(Insert(x, s)) == multiset(s) + multiset{x}
  {
    if s != [] && Precedes(s[0], x) {
      InsertKeepsItems(x, s[1..]);
      HeadAndTail(s);
    }
  }

  lemma {:induction false} SortKeepsItems<T>(s: seq<Candidate<T>>)
    ensures multiset(Sort(s)) == multiset(s)
  {
    if s != [] {
      SortKeepsItems(s[1..]);
      InsertKeepsItems(s[0], Sort(s[1..]));
      HeadAndTail(s);
    }
  }

  lemma {:induction false} InsertOrders<T>(x: Candidate<T>, s: seq<Candidate<T>>)
    requires StrictlyOrdered(s) && forall i :: 0 <= i < |s| ==> s[i].url != x.url
    ensures StrictlyOrdered(Insert(x, s))
  {
    if s != [] {
      if Precedes(s[0], x) {
        InsertOrders(x, s[1..]);
        var r := Insert(x, s[1..]);
        forall k | 0 <= k < |r| ensures Precedes(s[0], r[k]) {
          InsertedIsFrom(x, s[1..], k);
        }
      } else {
        assert Precedes(x, s[0]);
        forall k | 0 <= k < |s| ensures Precedes(x, s[k]) {
          if k > 0 { assert Precedes(s[0], s[k]); }
        }
      }
    }
  }

  lemma {:induction false} InsertedIsFrom<T>(x: Candidate<T>, s: seq<Candidate<T>>, k: nat)
    requires k <= |s|
    ensures Insert(x, s)[k] == x || Insert(x, s)[k] in s
  {
    if s != [] && Precedes(s[0], x) && k > 0 {
      InsertedIsFrom(x, s[1..], k - 1);
    }
  }

  lemma {:induction false} SortOrders<T>(s: seq<Candidate<T>>)
    requires DistinctUrls(s)
    ensures StrictlyOrdered(Sort(s))
  {
    if s != [] {
      SortOrders(s[1..]);
      SortKeepsItems(s[1..]);
      var rest := Sort(s[1..]);
      forall i | 0 <= i < |rest| ensures rest[i].url != s[0].url {
        var j := SameElement(rest, s[1..], i);
        assert s[1..][j] == s[j + 1];
      }
      InsertOrders(s[0], rest);
    }
  }

  lemma {:induction false} OrderedAreDistinct<T>(s: seq<Candidate<T>>)
    requires StrictlyOrdered(s)
    ensures forall i, j :: 0 <= i < j < |s| ==> s[i] != s[j] && !Precedes(s[j], s[i])
  {
    forall i, j | 0 <= i < j < |s| ensures s[i] != s[j] && !Precedes(s[j], s[i]) {
      assert Precedes(s[i], s[j]);
    }
  }

  lemma {:induction false} OrderIsUnique<T>(a: seq<Candidate<T>>, b: seq<Candidate<T>>)
    requires StrictlyOrdered(a) && StrictlyOrdered(b) && multiset(a) == multiset(b)
    ensures a == b
  {
    SameLength(a, b);
    if a != [] {
      var j := SameElement(a, b, 0);
      var i := SameElement(b, a, 0);
      if j > 0 && i > 0 {
        assert false;
      }
      assert a[0] == b[0];
      SameTails(a, b);
      OrderIsUnique(a[1..], b[1..]);
    }
  }

  predicate GroupsDiffer<T>(groups: seq<Group<T>>) {
    forall i, j :: 0 <= i < j < |groups| ==> groups[i].representative.url != groups[j].representative.url
  }

  /** A representative is one of the items. */
  ghost predicate IsOf<T>(representative: Scored<T>, items: seq<Pending<T>>) {
    exists i :: 0 <= i < |items| && items[i].input == representative.input && items[i].url == representative.url
  }

  lemma {:induction false} IsOfMore<T>(representative: Scored<T>, items: seq<Pending<T>>, n: nat)
    requires n <= |items| && IsOf(representative, items[..n])
    ensures IsOf(representative, items)
  {
    var i :| 0 <= i < |items[..n]| && items[..n][i].input == representative.input
             && items[..n][i].url == representative.url;
    assert items[i] == items[..n][i];
  }

  ghost predicate GroupsComeFrom<T>(groups: seq<Group<T>>, items: seq<Pending<T>>) {
    forall k :: 0 <= k < |groups| ==> IsOf(groups[k].representative, items) && groups[k].occurrences != []
  }

  lemma {:induction false} GroupsHaveDistinctUrls<T>(c: Reading<T>, statistics: Statistics, items: seq<Pending<T>>)
    ensures GroupsDiffer(GroupAll(c, statistics, items)) && GroupsComeFrom(GroupAll(c, statistics, items), items)
  {
    if items != [] {
      var n := |items| - 1;
      GroupsHaveDistinctUrls(c, statistics, items[..n]);
      var before := GroupAll(c, statistics, items[..n]);
      forall k | 0 <= k < |before| ensures IsOf(before[k].representative, items) {
        IsOfMore(before[k].representative, items, n);
      }
      assert IsOf(ScoredOf(c, items[n], statistics), items);
    }
  }

  lemma {:induction false} CollectedPassed<T>(c: Reading<T>, inputs: seq<T>, i: nat)
    requires i < |Collect(c, inputs)|
    ensures var item := Collect(c, inputs)[i];
      item.input in inputs && VerdictOf(c, item.input) == Passed && c.canonicalUrl(item.input) == Some(item.url)
  {
    var n := |inputs| - 1;
    if i < |Collect(c, inputs[..n])| {
      CollectedPassed(c, inputs[..n], i);
      assert inputs == inputs[..n] + [inputs[n]];
    }
  }

  /** An input with its canonical URL that passed every check. */
  ghost predicate IsAccepted<T>(c: Reading<T>, inputs: seq<T>, input: T, url: int) {
    && input in inputs && VerdictOf(c, input) == Passed && c.canonicalUrl(input) == Some(url)
    && IsRelevant(c, StatisticsFor(c, Collect(c, inputs)), input)
  }

  /** The fusion adds something, and less than the number of providers over k. */
  predicate FusionAdds<T>(c: Reading<T>, r: Candidate<T>) {
    0.0 < r.score - r.base < (r.fusion.providerCount as real) / RrfK(c)
  }

  lemma {:induction false} GroupIsAccepted<T>(c: Reading<T>, inputs: seq<T>, k: nat)
    requires k < |GroupsOf(c, Collect(c, inputs))|
    ensures var group := GroupsOf(c, Collect(c, inputs))[k];
      IsAccepted(c, inputs, group.representative.input, group.representative.url) && group.occurrences != []
  {
    var pending := Collect(c, inputs);
    var items := RelevantItems(c, pending);
    var group := GroupsOf(c, pending)[k];
    GroupsHaveDistinctUrls(c, StatisticsFor(c, pending), items);
    var i :| 0 <= i < |items| && items[i].input == group.representative.input
             && items[i].url == group.representative.url;
    var j :| 0 <= j < |pending| && pending[j] == items[i];
    CollectedPassed(c, inputs, j);
  }

  lemma {:induction false} AcceptAdds<T>(c: Reading<T>, group: Group<T>)
    requires group.occurrences != []
    ensures FusionAdds(c, Accept(c, group))
  {
    FusionIsBounded(c.anonymous, group.occurrences, RrfK(c));
  }

  /**
   The results are strictly ordered by score, base score and URL, have pairwise distinct
   canonical URLs, and each is an accepted input whose fusion adds between 0 and its
   number of providers over k.
   */
  lemma {:induction false} ResultsAreOrderedAndDistinct<T>(c: Reading<T>, inputs: seq<T>)
    ensures var results := Rank(c, inputs).results;
      && StrictlyOrdered(results) && DistinctUrls(results)
      && forall k :: 0 <= k < |results| ==>
           IsAccepted(c, inputs, results[k].input, results[k].url) && FusionAdds(c, results[k])
  {
    var pending := Collect(c, inputs);
    var accepted := AcceptAll(c, GroupsOf(c, pending));
    var results := Rank(c, inputs).results;
    GroupsHaveDistinctUrls(c, StatisticsFor(c, pending), RelevantItems(c, pending));
    SortOrders(accepted);
    SortKeepsItems(accepted);
    SortKeepsDistinct(accepted);
    forall k | 0 <= k < |results|
      ensures IsAccepted(c, inputs, results[k].input, results[k].url) && FusionAdds(c, results[k])
    {
      var j := SameElement(results, accepted, k);
      GroupIsAccepted(c, inputs, j);
      AcceptAdds(c, GroupsOf(c, pending)[j]);
    }
  }

  lemma {:induction false} SortKeepsDistinct<T>(s: seq<Candidate<T>>)
    requires DistinctUrls(s)
    ensures DistinctUrls(Sort(s))
  {
    SortKeepsItems(s);
    SortOrders(s);
    var r := Sort(s);
    OrderedAreDistinct(r);
    forall i, j | 0 <= i < j < |r| ensures r[i].url != r[j].url {
      var i' := SameElement(r, s, i);
      var j' := SameElement(r, s, j);
    }
  }

  // ---------------------------------------------------------------------------
  // Determinism
  // ---------------------------------------------------------------------------

  function Passing<T>(c: Reading<T>): T -> bool {
    (input: T) => VerdictOf(c, input) == Passed
  }

  /** No canonical URL occurs twice among the inputs that pass. */
  ghost predicate UrlsDiffer<T>(c: Reading<T>, inputs: seq<T>) {
    forall url :: multiset(Map(c.canonicalUrl, Filter(Passing(c), inputs)))[Some(url)] <= 1
  }

  /** The inputs that pass have a rank of their own. */
  predicate ExplicitRanks<T>(c: Reading<T>, inputs: seq<T>) {
    forall i :: 0 <= i < |inputs| && VerdictOf(c, inputs[i]) == Passed ==> c.rank(inputs[i]) != Missing
  }

  function AnyIndex<T>(c: Reading<T>): T -> Pending<T> {
    (input: T) => PendingOf(c, input, 0)
  }

  /** With explicit ranks, collecting does not look at positions. */
  lemma {:induction false} CollectIsMap<T>(c: Reading<T>, inputs: seq<T>)
    requires ExplicitRanks(c, inputs)
    ensures Collect(c, inputs) == Map(AnyIndex(c), Filter(Passing(c), inputs))
  {
    if inputs != [] {
      var n := |inputs| - 1;
      CollectIsMap(c, inputs[..n]);
      if VerdictOf(c, inputs[n]) == Passed {
        assert PendingOf(c, inputs[n], n) == PendingOf(c, inputs[n], 0);
      }
    }
  }

  predicate PendingDiffer<T>(pending: seq<Pending<T>>) {
    forall i, j :: 0 <= i < j < |pending| ==> pending[i].url != pending[j].url
  }

  lemma {:induction false} KeptPass<T>(c: Reading<T>, inputs: seq<T>)
    ensures forall i :: 0 <= i < |Filter(Passing(c), inputs)| ==> VerdictOf(c, Filter(Passing(c), inputs)[i]) == Passed
  {
    if inputs != [] {
      KeptPass(c, inputs[..|inputs| - 1]);
    }
  }

  lemma {:induction false} CollectedDiffer<T>(c: Reading<T>, inputs: seq<T>)
    requires UrlsDiffer(c, inputs) && ExplicitRanks(c, inputs)
    ensures PendingDiffer(Collect(c, inputs))
  {
    var pending := Collect(c, inputs);
    var kept := Filter(Passing(c), inputs);
    CollectIsMap(c, inputs);
    KeptPass(c, inputs);
    var urls := Map(c.canonicalUrl, kept);
    forall i, j | 0 <= i < j < |pending| ensures pending[i].url != pending[j].url {
      assert urls[i] == Some(pending[i].url) && urls[j] == Some(pending[j].url);
      if pending[i].url == pending[j].url {
        TwoPlaces(urls, i, j);
        assert false;
      }
    }
  }

  lemma {:induction false} AllAreDocuments<T>(pending: seq<Pending<T>>)
    requires PendingDiffer(pending)
    ensures Documents(pending) == pending
  {
    if pending != [] {
      var n := |pending| - 1;
      AllAreDocuments(pending[..n]);
      assert pending == pending[..n] + [pending[n]];
    }
  }

  function Alone<T>(c: Reading<T>, statistics: Statistics): Pending<T> -> Group<T> {
    (item: Pending<T>) => Group(ScoredOf(c, item, statistics), [item.occurrence])
  }

  lemma {:induction false} NotAmong<T>(c: Reading<T>, statistics: Statistics, items: seq<Pending<T>>, url: int)
    requires forall i :: 0 <= i < |items| ==> items[i].url != url
    ensures FindGroup(Map(Alone(c, statistics), items), url) == None
  {
    var groups := Map(Alone(c, statistics), items);
    assert forall i :: 0 <= i < |groups| ==> groups[i].representative.url == items[i].url;
  }

  lemma {:induction false} AllStandAlone<T>(c: Reading<T>, statistics: Statistics, items: seq<Pending<T>>)
    requires PendingDiffer(items)
    ensures GroupAll(c, statistics, items) == Map(Alone(c, statistics), items)
  {
    if items != [] {
      var n := |items| - 1;
      AllStandAlone(c, statistics, items[..n]);
      NotAmong(c, statistics, items[..n], items[n].url);
    }
  }

  lemma {:induction false} FilterKeepsDifferent<T>(keep: Pending<T> -> bool, pending: seq<Pending<T>>)
    requires PendingDiffer(pending)
    ensures PendingDiffer(Filter(keep, pending))
  {
    if pending != [] {
      FilterKeepsDifferent(keep, pending[..|pending| - 1]);
    }
  }

  lemma {:induction false} FrequenciesAreTotals<T>(c: Reading<T>, documents: seq<Pending<T>>, token: string)
    ensures token in Frequencies(c, documents) <==>
      exists i :: 0 <= i < |documents| && token in c.tokens(documents[i].input)
    ensures token in Frequencies(c, documents) ==>
      Frequencies(c, documents)[token] == Total(Containing(c, token), documents)
    ensures token !in Frequencies(c, documents) ==> Total(Containing(c, token), documents) == 0
  {
    if documents != [] {
      var n := |documents| - 1;
      FrequenciesAreTotals(c, documents[..n], token);
      if i :| 0 <= i < n && token in c.tokens(documents[i].input) {
        assert documents[..n][i] == documents[i];
      }
      if i :| 0 <= i < n && token in c.tokens(documents[..n][i].input) {
        assert documents[..n][i] == documents[i];
      }
    }
  }

  lemma {:induction false} TokensCarry<T>(c: Reading<T>, a: seq<Pending<T>>, b: seq<Pending<T>>, token: string)
    requires multiset(a) == multiset(b) && token in Frequencies(c, a)
    ensures token in Frequencies(c, b) && Frequencies(c, b)[token] == Frequencies(c, a)[token]
  {
    FrequenciesAreTotals(c, a, token);
    FrequenciesAreTotals(c, b, token);
    var i :| 0 <= i < |a| && token in c.tokens(a[i].input);
    var j := SameElement(a, b, i);
    TotalPermutes(Containing(c, token), a, b);
  }

  /** The statistics of the same documents in another order are the same. */
  lemma {:induction false} StatisticsIgnoreOrder<T>(c: Reading<T>, a: seq<Pending<T>>, b: seq<Pending<T>>)
    requires multiset(a) == multiset(b)
    ensures StatisticsOf(c, a) == StatisticsOf(c, b)
  {
    SameLength(a, b);
    TotalPermutes(Length(c), a, b);
    forall token ensures token in Frequencies(c, a) <==> token in Frequencies(c, b)
      ensures token in Frequencies(c, a) ==> Frequencies(c, a)[token] == Frequencies(c, b)[token]
    {
      if token in Frequencies(c, a) { TokensCarry(c, a, b, token); }
      if token in Frequencies(c, b) { TokensCarry(c, b, a, token); }
    }
    assert Frequencies(c, a) == Frequencies(c, b);
  }

  lemma {:induction false} PendingDecides<T>(c: Reading<T>, a: seq<Pending<T>>, b: seq<Pending<T>>)
    requires multiset(a) == multiset(b) && PendingDiffer(a) && PendingDiffer(b)
    ensures multiset(AcceptAll(c, GroupsOf(c, a))) == multiset(AcceptAll(c, GroupsOf(c, b)))
    ensures DistinctUrls(AcceptAll(c, GroupsOf(c, a))) && DistinctUrls(AcceptAll(c, GroupsOf(c, b)))
  {
    AllAreDocuments(a);
    AllAreDocuments(b);
    StatisticsIgnoreOrder(c, a, b);
    var statistics := StatisticsFor(c, a);
    var keep := Relevant(c, statistics);
    FilterPermutes(keep, a, b);
    FilterKeepsDifferent(keep, a);
    FilterKeepsDifferent(keep, b);
    AllStandAlone(c, statistics, Filter(keep, a));
    AllStandAlone(c, statistics, Filter(keep, b));
    MapPermutes(Alone(c, statistics), Filter(keep, a), Filter(keep, b));
    MapPermutes(Accepting(c), GroupsOf(c, a), GroupsOf(c, b));
    GroupsHaveDistinctUrls(c, statistics, Filter(keep, a));
    GroupsHaveDistinctUrls(c, statistics, Filter(keep, b));
  }

  /**
   When the inputs that pass have pairwise distinct canonical URLs and explicit ranks, the
   results do not depend on the order of the inputs.
   */
  lemma {:induction false} RankIgnoresInputOrder<T>(c: Reading<T>, a: seq<T>, b: seq<T>)
    requires multiset(a) == multiset(b)
    requires UrlsDiffer(c, a) && ExplicitRanks(c, a)
    ensures Rank(c, a).results == Rank(c, b).results
  {
    forall i | 0 <= i < |b| && VerdictOf(c, b[i]) == Passed ensures c.rank(b[i]) != Missing {
      var j := SameElement(b, a, i);
    }
    CollectIsMap(c, a);
    CollectIsMap(c, b);
    FilterPermutes(Passing(c), a, b);
    MapPermutes(c.canonicalUrl, Filter(Passing(c), a), Filter(Passing(c), b));
    MapPermutes(AnyIndex(c), Filter(Passing(c), a), Filter(Passing(c), b));
    CollectedDiffer(c, a);
    CollectedDiffer(c, b);
    PendingDecides(c, Collect(c, a), Collect(c, b));
    var accepted, accepted' := AcceptAll(c, GroupsOf(c, Collect(c, a))), AcceptAll(c, GroupsOf(c, Collect(c, b)));
    SortKeepsItems(accepted);
    SortKeepsItems(accepted');
    SortOrders(accepted);
    SortOrders(accepted');
    OrderIsUnique(Sort(accepted), Sort(accepted'));
  }
}
