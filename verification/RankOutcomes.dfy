/**
 What the ranking makes of its inputs: which are rejected for what, which one stands for a
 URL, what its score is and where it stands. Inputs are told by their positions.
 */
module RankOutcomes {
  import opened Wrappers
  import opened Permutations
  import opened RankFusion
  import opened FusionRanker
  import Scores = FusionScores

  // ---------------------------------------------------------------------------
  // Accepted inputs
  // ---------------------------------------------------------------------------

  /** The input has a URL that leads somewhere and a text, and meets the constraints of the query. */
  predicate Passes<T>(c: Reading<T>, input: T) {
    c.canonicalUrl(input).Some? && !c.isWrapper(input) && c.hasText(input) && c.passes(input)
  }

  /** Something but the shape of the page speaks for the input, or the query has no tokens. */
  predicate Speaks<T>(c: Reading<T>, statistics: Statistics, input: T) {
    c.queryHasTokens ==> c.score(input, statistics).base > c.score(input, statistics).pageShape
  }

  predicate Accepted<T>(c: Reading<T>, statistics: Statistics, input: T) {
    Passes(c, input) && Speaks(c, statistics, input)
  }

  /** The occurrence of input `i`: its rank counts from one when it has none. */
  predicate OccursAs<T>(c: Reading<T>, inputs: seq<T>, i: nat, o: Occurrence)
    requires i < |inputs|
  {
    && o.provider == c.provider(inputs[i]) && o.sourceFamily == c.sourceFamily(inputs[i])
    && (c.rank(inputs[i]).Missing? ==> o.providerRank == Some(i as real + 1.0))
    && (c.rank(inputs[i]).NotANumber? ==> o.providerRank.None?)
    && (c.rank(inputs[i]).Number? ==> o.providerRank == Some(c.rank(inputs[i]).value))
  }

  predicate Increasing(at: seq<nat>) {
    forall i, k :: 0 <= i < k < |at| ==> at[i] < at[k]
  }

  /** The items are those inputs that `keep` accepts, in their order, at the positions `at`. */
  ghost predicate ItemsAre<T>(c: Reading<T>, keep: T -> bool, inputs: seq<T>, items: seq<Pending<T>>, at: seq<nat>) {
    && |at| == |items| && Increasing(at)
    && (forall n :: 0 <= n < |at| ==> ItemIs(c, keep, inputs, items[n], at[n]))
    && (forall i :: 0 <= i < |inputs| && keep(inputs[i]) ==> i in at)
  }

  ghost predicate ItemIs<T>(c: Reading<T>, keep: T -> bool, inputs: seq<T>, item: Pending<T>, i: nat) {
    && i < |inputs| && keep(inputs[i]) && item.input == inputs[i]
    && c.canonicalUrl(inputs[i]) == Some(item.url) && OccursAs(c, inputs, i, item.occurrence)
  }

  function Accepting<T>(c: Reading<T>, statistics: Statistics): T -> bool {
    (input: T) => Accepted(c, statistics, input)
  }

  lemma {:induction false} PassedMeans<T>(c: Reading<T>, input: T)
    ensures VerdictOf(c, input) == Passed <==> Passes(c, input)
  {
  }

  lemma {:induction false} NextItem<T>(c: Reading<T>, keep: T -> bool, inputs: seq<T>, items: seq<Pending<T>>, at: seq<nat>,
                                       all: seq<T>, item: Pending<T>)
    requires ItemsAre(c, keep, inputs, items, at) && all != [] && inputs == all[..|all| - 1]
    requires keep(all[|inputs|]) ==> ItemIs(c, keep, all, item, |inputs|)
    ensures keep(all[|inputs|]) ==> ItemsAre(c, keep, all, items + [item], at + [|inputs|])
    ensures !keep(all[|inputs|]) ==> ItemsAre(c, keep, all, items, at)
  {
    var input := all[|inputs|];
    forall n | 0 <= n < |at| ensures ItemIs(c, keep, all, items[n], at[n]) {
      assert ItemIs(c, keep, inputs, items[n], at[n]);
    }
    if keep(input) {
      var more := at + [|inputs|];
      forall i | 0 <= i < |all| && keep(all[i]) ensures i in more {
        if i < |inputs| {
          assert i in at;
        } else {
          assert more[|at|] == i;
        }
      }
    }
  }

  lemma {:induction false} FilterSnoc<T>(keep: T -> bool, s: seq<T>, x: T)
    ensures Filter(keep, s + [x]) == Filter(keep, s) + if keep(x) then [x] else []
  {
    assert (s + [x])[..|s|] == s;
  }

  lemma {:induction false} FilterCollectNext<T>(c: Reading<T>, statistics: Statistics, inputs: seq<T>)
    requires inputs != []
    ensures var n := |inputs| - 1; var item := PendingOf(c, inputs[n], n);
      Filter(Relevant(c, statistics), Collect(c, inputs)) ==
        Filter(Relevant(c, statistics), Collect(c, inputs[..n])) +
        if Accepting(c, statistics)(inputs[n]) then [item] else []
  {
    var n := |inputs| - 1;
    var item := PendingOf(c, inputs[n], n);
    PassedMeans(c, inputs[n]);
    var before := Collect(c, inputs[..n]);
    FilterSnoc(Relevant(c, statistics), before, item);
    assert Relevant(c, statistics)(item) <==> Speaks(c, statistics, inputs[n]);
    assert Collect(c, inputs) == if Passes(c, inputs[n]) then before + [item] else before;
  }

  lemma {:induction false} PendingIsItem<T>(c: Reading<T>, statistics: Statistics, inputs: seq<T>, i: nat)
    requires i < |inputs| && Accepting(c, statistics)(inputs[i])
    ensures ItemIs(c, Accepting(c, statistics), inputs, PendingOf(c, inputs[i], i), i)
  {
  }

  lemma {:induction false} FilterCollect<T>(c: Reading<T>, statistics: Statistics, inputs: seq<T>) returns (at: seq<nat>)
    ensures ItemsAre(c, Accepting(c, statistics), inputs, Filter(Relevant(c, statistics), Collect(c, inputs)), at)
    decreases |inputs|
  {
    if inputs == [] {
      at := [];
    } else {
      var n := |inputs| - 1;
      var before := FilterCollect(c, statistics, inputs[..n]);
      if Accepting(c, statistics)(inputs[n]) { PendingIsItem(c, statistics, inputs, n); }
      FilterCollectNext(c, statistics, inputs);
      NextItem(c, Accepting(c, statistics), inputs[..n], Filter(Relevant(c, statistics), Collect(c, inputs[..n])), before,
               inputs, PendingOf(c, inputs[n], n));
      at := if Accepting(c, statistics)(inputs[n]) then before + [n] else before;
    }
  }

  /** The items that are grouped are the accepted inputs, in order, with their ranks. */
  lemma {:induction false} ItemsAreAcceptedInputs<T>(c: Reading<T>, inputs: seq<T>) returns (at: seq<nat>)
    ensures var pending := Collect(c, inputs);
      ItemsAre(c, Accepting(c, StatisticsFor(c, pending)), inputs, RelevantItems(c, pending), at)
  {
    at := FilterCollect(c, StatisticsFor(c, Collect(c, inputs)), inputs);
  }

  // ---------------------------------------------------------------------------
  // Rejected inputs
  // ---------------------------------------------------------------------------

  function HasVerdict<T>(c: Reading<T>, verdict: Verdict): T -> bool {
    (input: T) => VerdictOf(c, input) == verdict
  }

  lemma {:induction false} CountIsPlaces<T>(c: Reading<T>, inputs: seq<T>, verdict: Verdict)
    ensures CountVerdict(c, inputs, verdict) == |Places(HasVerdict(c, verdict), inputs)|
  {
    if inputs == [] {
      assert Places(HasVerdict(c, verdict), inputs) == {};
    } else {
      CountIsPlaces(c, inputs[..|inputs| - 1], verdict);
      PlacesNext(HasVerdict(c, verdict), inputs);
    }
  }

  lemma {:induction false} CollectedAreCounted<T>(c: Reading<T>, inputs: seq<T>)
    ensures |Collect(c, inputs)| == CountVerdict(c, inputs, Passed)
  {
    if inputs != [] {
      CollectedAreCounted(c, inputs[..|inputs| - 1]);
    }
  }

  function NoUrl<T>(c: Reading<T>): T -> bool {
    (input: T) => c.canonicalUrl(input).None?
  }

  function Unresolved<T>(c: Reading<T>): T -> bool {
    (input: T) => c.canonicalUrl(input).Some? && c.isWrapper(input)
  }

  function NoText<T>(c: Reading<T>): T -> bool {
    (input: T) => c.canonicalUrl(input).Some? && !c.isWrapper(input) && !c.hasText(input)
  }

  function Constrained<T>(c: Reading<T>): T -> bool {
    (input: T) => c.canonicalUrl(input).Some? && !c.isWrapper(input) && c.hasText(input) && !c.passes(input)
  }

  function Silent<T>(c: Reading<T>, statistics: Statistics): T -> bool {
    (input: T) => Passes(c, input) && !Speaks(c, statistics, input)
  }

  lemma {:induction false} SamePlaces<T(!new)>(keep: T -> bool, other: T -> bool, inputs: seq<T>)
    requires forall input :: keep(input) <==> other(input)
    ensures Places(keep, inputs) == Places(other, inputs)
  {
  }

  /** Each input that does not pass is counted for the first check it does not meet. */
  lemma {:induction false} RejectionsAreCounted<T(!new)>(c: Reading<T>, inputs: seq<T>)
    ensures Rank(c, inputs).rejected.invalid == |Places(NoUrl(c), inputs)|
    ensures Rank(c, inputs).rejected.wrapper == |Places(Unresolved(c), inputs)|
    ensures Rank(c, inputs).rejected.quality == |Places(NoText(c), inputs)|
    ensures Rank(c, inputs).rejected.constraint == |Places(Constrained(c), inputs)|
  {
    CountIsPlaces(c, inputs, InvalidUrl);
    SamePlaces(HasVerdict(c, InvalidUrl), NoUrl(c), inputs);
    CountIsPlaces(c, inputs, UnresolvedWrapper);
    SamePlaces(HasVerdict(c, UnresolvedWrapper), Unresolved(c), inputs);
    CountIsPlaces(c, inputs, MissingText);
    SamePlaces(HasVerdict(c, MissingText), NoText(c), inputs);
    CountIsPlaces(c, inputs, QueryConstraint);
    SamePlaces(HasVerdict(c, QueryConstraint), Constrained(c), inputs);
  }

  lemma {:induction false} PassedOrSilent<T(!new)>(c: Reading<T>, statistics: Statistics, inputs: seq<T>)
    ensures |Places(HasVerdict(c, Passed), inputs)| ==
      |Places(Accepting(c, statistics), inputs)| + |Places(Silent(c, statistics), inputs)|
  {
    var accepted, silent := Places(Accepting(c, statistics), inputs), Places(Silent(c, statistics), inputs);
    assert Places(HasVerdict(c, Passed), inputs) == accepted + silent;
    assert accepted !! silent;
  }

  /** An input that passes the checks is rejected when nothing but the shape of its page speaks for it. */
  lemma {:induction false} IrrelevantAreCounted<T(!new)>(c: Reading<T>, inputs: seq<T>)
    ensures Rank(c, inputs).rejected.relevance ==
      |Places(Silent(c, StatisticsFor(c, Collect(c, inputs))), inputs)|
  {
    var statistics := StatisticsFor(c, Collect(c, inputs));
    var at := ItemsAreAcceptedInputs(c, inputs);
    CollectedAreCounted(c, inputs);
    CountIsPlaces(c, inputs, Passed);
    AcceptedAreCounted(c, statistics, inputs, RelevantItems(c, Collect(c, inputs)), at);
    PassedOrSilent(c, statistics, inputs);
  }

  lemma {:induction false} AcceptedAreCounted<T>(c: Reading<T>, statistics: Statistics, inputs: seq<T>,
                                                 items: seq<Pending<T>>, at: seq<nat>)
    requires ItemsAre(c, Accepting(c, statistics), inputs, items, at)
    ensures |items| == |Places(Accepting(c, statistics), inputs)|
  {
    Scores.DistinctLength(at);
    forall i: nat | i in at ensures i in Places(Accepting(c, statistics), inputs) {
      var n :| 0 <= n < |at| && at[n] == i;
      assert ItemIs(c, Accepting(c, statistics), inputs, items[n], at[n]);
    }
    assert Scores.Elements(at) == Places(Accepting(c, statistics), inputs);
  }

  // ---------------------------------------------------------------------------
  // The statistics
  // ---------------------------------------------------------------------------

  /** Place `n` of `pending` is the first with its URL. */
  ghost predicate IsFirstOfUrl<T>(pending: seq<Pending<T>>, n: nat) {
    n < |pending| && forall j :: 0 <= j < n ==> pending[j].url != pending[n].url
  }

  ghost predicate DocumentsAt<T>(pending: seq<Pending<T>>, documents: seq<Pending<T>>, at: seq<nat>) {
    && |at| == |documents| && Increasing(at)
    && (forall n :: 0 <= n < |at| ==> IsFirstOfUrl(pending, at[n]) && documents[n] == pending[at[n]])
    && (forall i :: 0 <= i < |pending| ==> HasUrl(documents, pending[i].url))
  }

  lemma {:induction false} UrlStays<T>(items: seq<Pending<T>>, more: Pending<T>, url: int)
    requires HasUrl(items, url)
    ensures HasUrl(items + [more], url)
  {
    var i :| 0 <= i < |items| && items[i].url == url;
    assert (items + [more])[i].url == url;
  }

  lemma {:induction false} NextDocument<T>(pending: seq<Pending<T>>, documents: seq<Pending<T>>, at: seq<nat>, next: Pending<T>)
    requires DocumentsAt(pending, documents, at)
    ensures if HasUrl(documents, next.url) then DocumentsAt(pending + [next], documents, at)
            else DocumentsAt(pending + [next], documents + [next], at + [|pending|])
  {
    var all := pending + [next];
    forall n | 0 <= n < |at| ensures IsFirstOfUrl(all, at[n]) && documents[n] == all[at[n]] {
      assert IsFirstOfUrl(pending, at[n]);
    }
    if !HasUrl(documents, next.url) {
      forall j | 0 <= j < |pending| ensures pending[j].url != next.url { assert HasUrl(documents, pending[j].url); }
      assert IsFirstOfUrl(all, |pending|);
      assert (documents + [next])[|documents|].url == next.url;
      forall i | 0 <= i < |pending| ensures HasUrl(documents + [next], pending[i].url) {
        UrlStays(documents, next, pending[i].url);
      }
    }
  }

  /** The documents are the candidates that are the first of their URL, in order. */
  lemma {:induction false} DocumentsAreTheFirst<T>(pending: seq<Pending<T>>) returns (at: seq<nat>)
    ensures DocumentsAt(pending, Documents(pending), at)
    decreases |pending|
  {
    if pending == [] {
      at := [];
    } else {
      var n := |pending| - 1;
      at := DocumentsAreTheFirst(pending[..n]);
      NextDocument(pending[..n], Documents(pending[..n]), at, pending[n]);
      assert pending[..n] + [pending[n]] == pending;
      if !HasUrl(Documents(pending[..n]), pending[n].url) { at := at + [n]; }
    }
  }

  function Contains<T>(c: Reading<T>, token: string): Pending<T> -> bool {
    (item: Pending<T>) => token in c.tokens(item.input)
  }

  lemma {:induction false} TotalIsPlaces<T>(c: Reading<T>, documents: seq<Pending<T>>, token: string)
    ensures Total(Containing(c, token), documents) == |Places(Contains(c, token), documents)|
    decreases |documents|
  {
    if documents == [] {
      assert Places(Contains(c, token), documents) == {};
    } else {
      TotalIsPlaces(c, documents[..|documents| - 1], token);
      PlacesNext(Contains(c, token), documents);
    }
  }

  /** The statistics count the documents and, for each token that occurs, those that contain it. */
  lemma {:induction false} StatisticsCount<T>(c: Reading<T>, documents: seq<Pending<T>>, token: string)
    requires documents != []
    ensures var s := StatisticsOf(c, documents);
      && s.documents == |documents|
      && (token in s.frequency <==> exists i :: 0 <= i < |documents| && token in c.tokens(documents[i].input))
      && (token in s.frequency ==> s.frequency[token] == |Places(Contains(c, token), documents)|)
  {
    FrequenciesAreTotals(c, documents, token);
    TotalIsPlaces(c, documents, token);
  }

  /** The mean length times the number of documents is the sum of their lengths; without documents it is one. */
  lemma {:induction false} MeanLengthMeans<T>(c: Reading<T>, documents: seq<Pending<T>>)
    ensures documents == [] ==> StatisticsOf(c, documents) == Statistics(1, map[], 1.0)
    ensures documents != [] ==>
      StatisticsOf(c, documents).meanLength * (|documents| as real) == Total(Length(c), documents) as real
  {
  }

  // ---------------------------------------------------------------------------
  // What stands for a URL
  // ---------------------------------------------------------------------------

  /** The occurrences of the items with this URL, in order. */
  function OccurrencesOf<T>(items: seq<Pending<T>>, url: int): seq<Occurrence> {
    if items == [] then []
    else
      var n := |items| - 1;
      OccurrencesOf(items[..n], url) + if items[n].url == url then [items[n].occurrence] else []
  }

  function BaseOf<T>(c: Reading<T>, statistics: Statistics, input: T): real {
    c.score(input, statistics).base
  }

  /** Item `m` is the first with the highest base score among those with this URL. */
  ghost predicate Represents<T>(c: Reading<T>, statistics: Statistics, items: seq<Pending<T>>, url: int, m: nat) {
    && m < |items| && items[m].url == url
    && forall j :: 0 <= j < |items| && items[j].url == url ==>
         || BaseOf(c, statistics, items[j].input) < BaseOf(c, statistics, items[m].input)
         || (BaseOf(c, statistics, items[j].input) == BaseOf(c, statistics, items[m].input) && m <= j)
  }

  /** The group has every occurrence of its URL and is represented by the first item with the highest base score. */
  ghost predicate GroupIs<T>(c: Reading<T>, statistics: Statistics, items: seq<Pending<T>>, group: Group<T>) {
    && group.occurrences == OccurrencesOf(items, group.representative.url)
    && exists m: nat :: Represents(c, statistics, items, group.representative.url, m)
                   && group.representative == ScoredOf(c, items[m], statistics)
  }

  lemma {:induction false} OtherGroupStays<T>(c: Reading<T>, statistics: Statistics, items: seq<Pending<T>>, group: Group<T>)
    requires items != [] && GroupIs(c, statistics, items[..|items| - 1], group)
    requires items[|items| - 1].url != group.representative.url
    ensures GroupIs(c, statistics, items, group)
  {
    var n := |items| - 1;
    var m: nat :| Represents(c, statistics, items[..n], group.representative.url, m)
             && group.representative == ScoredOf(c, items[..n][m], statistics);
    assert forall j :: 0 <= j < n ==> items[..n][j] == items[j];
    assert Represents(c, statistics, items, group.representative.url, m);
  }

  lemma {:induction false} GroupGrows<T>(c: Reading<T>, statistics: Statistics, items: seq<Pending<T>>, group: Group<T>)
    requires items != [] && GroupIs(c, statistics, items[..|items| - 1], group)
    requires items[|items| - 1].url == group.representative.url
    ensures var last := items[|items| - 1];
      GroupIs(c, statistics, items, AddToGroup(group, ScoredOf(c, last, statistics), last.occurrence))
  {
    var n := |items| - 1;
    var url := group.representative.url;
    var m: nat :| Represents(c, statistics, items[..n], url, m)
             && group.representative == ScoredOf(c, items[..n][m], statistics);
    assert forall j :: 0 <= j < n ==> items[..n][j] == items[j];
    var best := if BaseOf(c, statistics, items[n].input) > BaseOf(c, statistics, items[m].input) then n else m;
    assert Represents(c, statistics, items, url, best);
  }

  lemma {:induction false} NoOccurrences<T>(items: seq<Pending<T>>, url: int)
    requires forall i :: 0 <= i < |items| ==> items[i].url != url
    ensures OccurrencesOf(items, url) == []
  {
    if items != [] {
      NoOccurrences(items[..|items| - 1], url);
    }
  }

  lemma {:induction false} GroupStarts<T>(c: Reading<T>, statistics: Statistics, items: seq<Pending<T>>)
    requires items != [] && forall i :: 0 <= i < |items| - 1 ==> items[i].url != items[|items| - 1].url
    ensures var last := items[|items| - 1];
      GroupIs(c, statistics, items, Group(ScoredOf(c, last, statistics), [last.occurrence]))
  {
    var n := |items| - 1;
    NoOccurrences(items[..n], items[n].url);
    assert Represents(c, statistics, items, items[n].url, n);
  }

  ghost predicate HasGroup<T>(groups: seq<Group<T>>, url: int) {
    exists k :: 0 <= k < |groups| && groups[k].representative.url == url
  }

  ghost predicate GroupsAre<T>(c: Reading<T>, statistics: Statistics, items: seq<Pending<T>>, groups: seq<Group<T>>) {
    forall k :: 0 <= k < |groups| ==> GroupIs(c, statistics, items, groups[k])
  }

  lemma {:induction false} GroupsNext<T>(c: Reading<T>, statistics: Statistics, items: seq<Pending<T>>, before: seq<Group<T>>)
    requires items != [] && GroupsDiffer(before)
    requires GroupsAre(c, statistics, items[..|items| - 1], before)
    requires forall i :: 0 <= i < |items| - 1 ==> HasGroup(before, items[i].url)
    ensures var last := items[|items| - 1];
      GroupsAre(c, statistics, items, AddItem(before, ScoredOf(c, last, statistics), last.occurrence))
  {
    var last := items[|items| - 1];
    var groups := AddItem(before, ScoredOf(c, last, statistics), last.occurrence);
    var found := FindGroup(before, last.url);
    if found.None? {
      forall i | 0 <= i < |items| - 1 ensures items[i].url != last.url { assert HasGroup(before, items[i].url); }
      GroupStarts(c, statistics, items);
    } else {
      GroupGrows(c, statistics, items, before[found.value]);
    }
    forall k | 0 <= k < |before| && found != Some(k) ensures GroupIs(c, statistics, items, before[k]) {
      OtherGroupStays(c, statistics, items, before[k]);
    }
  }

  lemma {:induction false} EveryUrlHasGroup<T>(c: Reading<T>, statistics: Statistics, items: seq<Pending<T>>)
    ensures forall i :: 0 <= i < |items| ==> HasGroup(GroupAll(c, statistics, items), items[i].url)
    decreases |items|
  {
    if items != [] {
      var n := |items| - 1;
      var before := GroupAll(c, statistics, items[..n]);
      EveryUrlHasGroup(c, statistics, items[..n]);
      forall i | 0 <= i < |items| ensures HasGroup(GroupAll(c, statistics, items), items[i].url) {
        if i < n { assert items[..n][i] == items[i]; }
        GroupStaysListed(before, ScoredOf(c, items[n], statistics), items[n].occurrence, items[i].url);
      }
    }
  }

  lemma {:induction false} EarlierUrlsHaveGroups<T>(c: Reading<T>, statistics: Statistics, items: seq<Pending<T>>)
    requires items != []
    ensures forall i :: 0 <= i < |items| - 1 ==> HasGroup(GroupAll(c, statistics, items[..|items| - 1]), items[i].url)
  {
    var init := items[..|items| - 1];
    EveryUrlHasGroup(c, statistics, init);
    forall i | 0 <= i < |items| - 1 ensures HasGroup(GroupAll(c, statistics, init), items[i].url) {
      assert init[i] == items[i];
    }
  }

  lemma {:induction false} GroupsStayByUrl<T>(c: Reading<T>, statistics: Statistics, items: seq<Pending<T>>)
    requires items != []
    requires GroupsAre(c, statistics, items[..|items| - 1], GroupAll(c, statistics, items[..|items| - 1]))
    ensures GroupsAre(c, statistics, items, GroupAll(c, statistics, items))
  {
    var init := items[..|items| - 1];
    GroupsHaveDistinctUrls(c, statistics, init);
    EarlierUrlsHaveGroups(c, statistics, items);
    GroupsNext(c, statistics, items, GroupAll(c, statistics, init));
  }

  lemma {:induction false} GroupsAreByUrl<T>(c: Reading<T>, statistics: Statistics, items: seq<Pending<T>>)
    ensures GroupsAre(c, statistics, items, GroupAll(c, statistics, items))
    decreases |items|
  {
    if items != [] {
      GroupsAreByUrl(c, statistics, items[..|items| - 1]);
      GroupsStayByUrl(c, statistics, items);
    }
  }

  lemma {:induction false} GroupStaysListed<T>(groups: seq<Group<T>>, scored: Scored<T>, occurrence: Occurrence, url: int)
    requires HasGroup(groups, url) || scored.url == url
    ensures HasGroup(AddItem(groups, scored, occurrence), url)
  {
    var after := AddItem(groups, scored, occurrence);
    if HasGroup(groups, url) {
      var k :| 0 <= k < |groups| && groups[k].representative.url == url;
      assert after[k].representative.url == url;
    } else {
      assert after[|groups|].representative.url == url;
    }
  }

  // ---------------------------------------------------------------------------
  // Results
  // ---------------------------------------------------------------------------

  function UrlOf<T>(c: Reading<T>, inputs: seq<T>, i: nat): Option<int>
    requires i < |inputs|
  {
    c.canonicalUrl(inputs[i])
  }

  function StatisticsOfInputs<T>(c: Reading<T>, inputs: seq<T>): Statistics {
    StatisticsFor(c, Collect(c, inputs))
  }

  predicate AcceptedAt<T>(c: Reading<T>, inputs: seq<T>, i: nat) {
    i < |inputs| && Accepted(c, StatisticsOfInputs(c, inputs), inputs[i])
  }

  function BaseAt<T>(c: Reading<T>, inputs: seq<T>, i: nat): real
    requires i < |inputs|
  {
    c.score(inputs[i], StatisticsOfInputs(c, inputs)).base
  }

  /** Input `i` is accepted, and it is the first with the highest base score among the accepted ones of its URL. */
  ghost predicate StandsForItsUrl<T>(c: Reading<T>, inputs: seq<T>, i: nat) {
    && AcceptedAt(c, inputs, i)
    && forall j: nat :: AcceptedAt(c, inputs, j) && UrlOf(c, inputs, j) == UrlOf(c, inputs, i) ==>
         || BaseAt(c, inputs, j) < BaseAt(c, inputs, i)
         || (BaseAt(c, inputs, j) == BaseAt(c, inputs, i) && i <= j)
  }

  /** The positions of the accepted inputs with this URL, in order, with their occurrences. */
  ghost predicate OccurrencesAre<T>(c: Reading<T>, inputs: seq<T>, url: int, places: seq<nat>,
                                    occurrences: seq<Occurrence>) {
    && |places| == |occurrences| && Increasing(places)
    && (forall n :: 0 <= n < |places| ==>
          && AcceptedAt(c, inputs, places[n]) && UrlOf(c, inputs, places[n]) == Some(url)
          && OccursAs(c, inputs, places[n], occurrences[n]))
    && (forall i: nat :: AcceptedAt(c, inputs, i) && UrlOf(c, inputs, i) == Some(url) ==> i in places)
  }

  /** The items with this URL stand at the positions `at`. */
  ghost predicate StandAt<T>(items: seq<Pending<T>>, url: int, occurrences: seq<Occurrence>, at: seq<nat>) {
    && |at| == |occurrences| && Increasing(at)
    && (forall n :: 0 <= n < |at| ==>
          at[n] < |items| && items[at[n]].url == url && occurrences[n] == items[at[n]].occurrence)
    && (forall i :: 0 <= i < |items| && items[i].url == url ==> i in at)
  }

  lemma {:induction false} NextStands<T>(items: seq<Pending<T>>, url: int, occurrences: seq<Occurrence>, at: seq<nat>,
                                         item: Pending<T>)
    requires StandAt(items, url, occurrences, at)
    ensures item.url == url ==> StandAt(items + [item], url, occurrences + [item.occurrence], at + [|items|])
    ensures item.url != url ==> StandAt(items + [item], url, occurrences, at)
  {
    if item.url == url {
      var all, more := items + [item], at + [|items|];
      forall i | 0 <= i < |all| && all[i].url == url ensures i in more {
        if i < |items| {
          assert i in at;
        } else {
          assert more[|at|] == i;
        }
      }
    }
  }

  lemma {:induction false} OccurrencesStandAt<T>(items: seq<Pending<T>>, url: int) returns (at: seq<nat>)
    ensures StandAt(items, url, OccurrencesOf(items, url), at)
    decreases |items|
  {
    if items == [] {
      at := [];
    } else {
      var n := |items| - 1;
      at := OccurrencesStandAt(items[..n], url);
      NextStands(items[..n], url, OccurrencesOf(items[..n], url), at, items[n]);
      assert items[..n] + [items[n]] == items;
      if items[n].url == url { at := at + [n]; }
    }
  }

  lemma {:induction false} ItemIsAccepted<T>(c: Reading<T>, inputs: seq<T>, items: seq<Pending<T>>, at: seq<nat>, m: nat)
    requires ItemsAre(c, Accepting(c, StatisticsOfInputs(c, inputs)), inputs, items, at) && m < |items|
    ensures AcceptedAt(c, inputs, at[m]) && UrlOf(c, inputs, at[m]) == Some(items[m].url) && items[m].input == inputs[at[m]]
    ensures OccursAs(c, inputs, at[m], items[m].occurrence)
  {
    assert ItemIs(c, Accepting(c, StatisticsOfInputs(c, inputs)), inputs, items[m], at[m]);
  }

  lemma {:induction false} AcceptedIsItem<T>(c: Reading<T>, inputs: seq<T>, items: seq<Pending<T>>, at: seq<nat>, i: nat)
    returns (m: nat)
    requires ItemsAre(c, Accepting(c, StatisticsOfInputs(c, inputs)), inputs, items, at) && AcceptedAt(c, inputs, i)
    ensures m < |items| && at[m] == i && Some(items[m].url) == UrlOf(c, inputs, i)
  {
    assert Accepting(c, StatisticsOfInputs(c, inputs))(inputs[i]);
    m :| 0 <= m < |at| && at[m] == i;
    ItemIsAccepted(c, inputs, items, at, m);
  }

  /** The positions of the inputs behind the items at `stand`. */
  function Through(at: seq<nat>, stand: seq<nat>): (r: seq<nat>)
    requires forall n :: 0 <= n < |stand| ==> stand[n] < |at|
    ensures |r| == |stand| && forall n :: 0 <= n < |r| ==> r[n] == at[stand[n]]
  {
    seq(|stand|, n requires 0 <= n < |stand| => at[stand[n]])
  }

  lemma {:induction false} ThroughIncreases(at: seq<nat>, stand: seq<nat>)
    requires Increasing(at) && Increasing(stand) && forall n :: 0 <= n < |stand| ==> stand[n] < |at|
    ensures Increasing(Through(at, stand))
  {
  }

  /** The items of a URL are the accepted inputs of that URL. */
  lemma {:induction false} ItemsOfUrl<T>(c: Reading<T>, inputs: seq<T>, items: seq<Pending<T>>, at: seq<nat>, url: int)
    returns (places: seq<nat>)
    requires ItemsAre(c, Accepting(c, StatisticsOfInputs(c, inputs)), inputs, items, at)
    ensures OccurrencesAre(c, inputs, url, places, OccurrencesOf(items, url))
  {
    var stand := OccurrencesStandAt(items, url);
    places := Through(at, stand);
    ThroughIncreases(at, stand);
    forall n | 0 <= n < |places|
      ensures AcceptedAt(c, inputs, places[n]) && UrlOf(c, inputs, places[n]) == Some(url)
              && OccursAs(c, inputs, places[n], OccurrencesOf(items, url)[n])
    {
      ItemIsAccepted(c, inputs, items, at, stand[n]);
    }
    forall i: nat | AcceptedAt(c, inputs, i) && UrlOf(c, inputs, i) == Some(url) ensures i in places {
      var m := AcceptedIsItem(c, inputs, items, at, i);
      var n :| 0 <= n < |stand| && stand[n] == m;
      assert places[n] == i;
    }
  }

  /** The item that represents a URL is the input that stands for it. */
  lemma {:induction false} RepresentativeStands<T>(c: Reading<T>, inputs: seq<T>, items: seq<Pending<T>>, at: seq<nat>,
                                                   url: int, m: nat)
    requires ItemsAre(c, Accepting(c, StatisticsOfInputs(c, inputs)), inputs, items, at)
    requires Represents(c, StatisticsOfInputs(c, inputs), items, url, m)
    ensures StandsForItsUrl(c, inputs, at[m]) && UrlOf(c, inputs, at[m]) == Some(url) && items[m].input == inputs[at[m]]
  {
    ItemIsAccepted(c, inputs, items, at, m);
    forall j: nat | AcceptedAt(c, inputs, j) && UrlOf(c, inputs, j) == Some(url)
      ensures BaseAt(c, inputs, j) < BaseAt(c, inputs, at[m])
              || (BaseAt(c, inputs, j) == BaseAt(c, inputs, at[m]) && at[m] <= j)
    {
      var l := AcceptedIsItem(c, inputs, items, at, j);
      ItemIsAccepted(c, inputs, items, at, l);
      assert m < l ==> at[m] < at[l];
    }
  }

  /** What a result says about the input `i` that it comes from and the accepted inputs `places` that share its URL. */
  ghost predicate ResultIs<T>(c: Reading<T>, inputs: seq<T>, r: Candidate<T>, i: nat, places: seq<nat>,
                              occurrences: seq<Occurrence>) {
    && StandsForItsUrl(c, inputs, i) && r.input == inputs[i] && UrlOf(c, inputs, i) == Some(r.url)
    && OccurrencesAre(c, inputs, r.url, places, occurrences)
    && r.base == BaseAt(c, inputs, i) && r.fusion == Fuse(c.anonymous, occurrences, RrfK(c))
    && r.score == r.base + r.fusion.rrfScore
  }

  /**
   Each result comes from the first accepted input of its URL with the highest base score.
   To that base score the fusion of all accepted inputs of the URL is added.
   */
  lemma {:induction false} ResultMeans<T>(c: Reading<T>, inputs: seq<T>, k: nat)
    returns (i: nat, places: seq<nat>, occurrences: seq<Occurrence>)
    requires k < |Rank(c, inputs).results|
    ensures ResultIs(c, inputs, Rank(c, inputs).results[k], i, places, occurrences)
  {
    var pending, statistics := Collect(c, inputs), StatisticsOfInputs(c, inputs);
    var items, groups := RelevantItems(c, pending), GroupsOf(c, pending);
    var accepted := AcceptAll(c, groups);
    SortKeepsItems(accepted);
    var j := SameElement(Rank(c, inputs).results, accepted, k);
    GroupsAreByUrl(c, statistics, items);
    assert GroupIs(c, statistics, items, groups[j]);
    var at := ItemsAreAcceptedInputs(c, inputs);
    var url := groups[j].representative.url;
    var m: nat :| Represents(c, statistics, items, url, m) && groups[j].representative == ScoredOf(c, items[m], statistics);
    RepresentativeStands(c, inputs, items, at, url, m);
    i := at[m];
    occurrences := OccurrencesOf(items, url);
    places := ItemsOfUrl(c, inputs, items, at, url);
  }

  /** Every accepted input has a result for its URL. */
  lemma {:induction false} EveryUrlHasResult<T>(c: Reading<T>, inputs: seq<T>, i: nat) returns (k: nat)
    requires AcceptedAt(c, inputs, i)
    ensures k < |Rank(c, inputs).results| && Some(Rank(c, inputs).results[k].url) == UrlOf(c, inputs, i)
  {
    var pending, statistics := Collect(c, inputs), StatisticsOfInputs(c, inputs);
    var items, groups := RelevantItems(c, pending), GroupsOf(c, pending);
    var at := ItemsAreAcceptedInputs(c, inputs);
    var m := AcceptedIsItem(c, inputs, items, at, i);
    EveryUrlHasGroup(c, statistics, items);
    assert HasGroup(groups, items[m].url);
    var j :| 0 <= j < |groups| && groups[j].representative.url == items[m].url;
    var accepted := AcceptAll(c, groups);
    SortKeepsItems(accepted);
    k := SameElement(accepted, Rank(c, inputs).results, j);
  }

  // ---------------------------------------------------------------------------
  // The order of the results
  // ---------------------------------------------------------------------------

  /** A result stands before another when its score is higher, or else its base score, or else its URL comes first. */
  lemma {:induction false} ResultsAreInOrder<T>(c: Reading<T>, inputs: seq<T>, i: nat, j: nat)
    requires i < |Rank(c, inputs).results| && j < |Rank(c, inputs).results| && i != j
    ensures var r, s := Rank(c, inputs).results[i], Rank(c, inputs).results[j];
      && (r.score > s.score ==> i < j)
      && (r.score == s.score && r.base > s.base ==> i < j)
      && (r.score == s.score && r.base == s.base ==> (i < j <==> r.url < s.url))
  {
    ResultsAreOrderedAndDistinct(c, inputs);
  }

  /** No other accepted input shares the URL. */
  ghost predicate IsAlone<T>(c: Reading<T>, inputs: seq<T>, i: nat) {
    && AcceptedAt(c, inputs, i)
    && forall j: nat :: AcceptedAt(c, inputs, j) && UrlOf(c, inputs, j) == UrlOf(c, inputs, i) ==> j == i
  }

  lemma {:induction false} SecondIsOther(places: seq<nat>)
    requires Increasing(places)
    ensures |places| > 1 ==> places[0] != places[1]
  {
  }

  lemma {:induction false} OnlyPlace<T>(c: Reading<T>, inputs: seq<T>, i: nat, url: int, places: seq<nat>,
                                        occurrences: seq<Occurrence>)
    requires IsAlone(c, inputs, i) && UrlOf(c, inputs, i) == Some(url) && OccurrencesAre(c, inputs, url, places, occurrences)
    ensures |occurrences| == 1 && OccursAs(c, inputs, i, occurrences[0])
  {
    SecondIsOther(places);
    assert i in places;
    forall n | 0 <= n < |places| ensures places[n] == i { assert AcceptedAt(c, inputs, places[n]); }
  }

  lemma {:induction false} AloneStands<T>(c: Reading<T>, inputs: seq<T>, i: nat, from: nat)
    requires IsAlone(c, inputs, i) && StandsForItsUrl(c, inputs, from) && UrlOf(c, inputs, from) == UrlOf(c, inputs, i)
    ensures from == i
  {
  }

  lemma {:induction false} AloneFusion<T>(c: Reading<T>, inputs: seq<T>, i: nat) returns (k: nat, o: Occurrence, adds: real)
    requires IsAlone(c, inputs, i)
    ensures k < |Rank(c, inputs).results| && OccursAs(c, inputs, i, o)
    ensures var r := Rank(c, inputs).results[k];
      r.input == inputs[i] && Some(r.url) == UrlOf(c, inputs, i) && r.base == BaseAt(c, inputs, i)
      && adds == Fuse(c.anonymous, [o], RrfK(c)).rrfScore && r.score == r.base + adds
  {
    k := EveryUrlHasResult(c, inputs, i);
    var r := Rank(c, inputs).results[k];
    var from, places, occurrences := ResultMeans(c, inputs, k);
    AloneStands(c, inputs, i, from);
    OnlyPlace(c, inputs, i, r.url, places, occurrences);
    o, adds := occurrences[0], r.fusion.rrfScore;
    assert occurrences == [o];
  }

  /** An input that is alone with its URL adds 1 / (k + its rank) to its base score. */
  lemma {:induction false} AloneScore<T>(c: Reading<T>, inputs: seq<T>, i: nat, rank: real) returns (k: nat)
    requires IsAlone(c, inputs, i) && c.rank(inputs[i]) == Number(rank) && rank > 0.0
    ensures k < |Rank(c, inputs).results|
    ensures var r := Rank(c, inputs).results[k];
      r.input == inputs[i] && Some(r.url) == UrlOf(c, inputs, i) && r.base == BaseAt(c, inputs, i)
      && r.score == r.base + Scores.Reciprocal(RrfK(c), rank)
  {
    var o, adds;
    k, o, adds := AloneFusion(c, inputs, i);
    Scores.OneOccurrenceScore(c.anonymous, o, RrfK(c), rank);
  }

  lemma {:induction false} BetterRankAddsMore(base: real, k: real, rank: real, than: real)
    requires k > 0.0 && 0.0 < rank < than
    ensures base + Scores.Reciprocal(k, rank) > base + Scores.Reciprocal(k, than)
  {
    Quotients(k + rank, k + than);
  }

  lemma {:induction false} HigherScoreStandsFirst<T>(c: Reading<T>, inputs: seq<T>, i: nat, j: nat)
    requires i < |Rank(c, inputs).results| && j < |Rank(c, inputs).results|
    requires Rank(c, inputs).results[i].score > Rank(c, inputs).results[j].score
    ensures i < j
  {
    ResultsAreInOrder(c, inputs, i, j);
  }

  /**
   Of two inputs with equal base scores, each alone with its URL, the one with the better
   provider rank stands first.
   */
  lemma {:induction false} BetterRankStandsFirst<T>(c: Reading<T>, inputs: seq<T>, x: nat, y: nat, rank: real, than: real)
    returns (i: nat, j: nat)
    requires IsAlone(c, inputs, x) && IsAlone(c, inputs, y) && BaseAt(c, inputs, x) == BaseAt(c, inputs, y)
    requires c.rank(inputs[x]) == Number(rank) && c.rank(inputs[y]) == Number(than) && 0.0 < rank < than
    ensures i < j < |Rank(c, inputs).results|
    ensures Rank(c, inputs).results[i].input == inputs[x] && Rank(c, inputs).results[j].input == inputs[y]
  {
    i := AloneScore(c, inputs, x, rank);
    j := AloneScore(c, inputs, y, than);
    BetterRankAddsMore(Rank(c, inputs).results[i].base, RrfK(c), rank, than);
    HigherScoreStandsFirst(c, inputs, i, j);
  }

  lemma {:induction false} ResultFusion<T>(c: Reading<T>, inputs: seq<T>, i: nat)
    returns (occurrences: seq<Occurrence>, adds: real)
    requires i < |Rank(c, inputs).results|
    ensures adds == Fuse(c.anonymous, occurrences, RrfK(c)).rrfScore
    ensures Rank(c, inputs).results[i].score == Rank(c, inputs).results[i].base + adds
    ensures Rank(c, inputs).results[i].fusion.providerRanks == Fuse(c.anonymous, occurrences, RrfK(c)).providerRanks
  {
    var from, places;
    from, places, occurrences := ResultMeans(c, inputs, i);
    adds := Rank(c, inputs).results[i].fusion.rrfScore;
  }

  lemma {:induction false} OneProviderResult<T>(c: Reading<T>, inputs: seq<T>, i: nat, name: string, rank: real)
    requires i < |Rank(c, inputs).results| && Rank(c, inputs).results[i].fusion.providerRanks == map[name := rank]
    ensures rank > 0.0
    ensures Rank(c, inputs).results[i].score == Rank(c, inputs).results[i].base + Scores.Reciprocal(RrfK(c), rank)
  {
    var occurrences, adds := ResultFusion(c, inputs, i);
    Scores.OneProviderScore(c.anonymous, occurrences, RrfK(c), name, rank);
  }

  /** Of two results with equal base scores that one provider each speaks for, the one with the better rank stands first. */
  lemma {:induction false} BetterProviderRankStandsFirst<T>(c: Reading<T>, inputs: seq<T>, i: nat, j: nat,
                                                            name: string, rank: real, other: string, than: real)
    requires i < |Rank(c, inputs).results| && j < |Rank(c, inputs).results|
    requires Rank(c, inputs).results[i].base == Rank(c, inputs).results[j].base
    requires Rank(c, inputs).results[i].fusion.providerRanks == map[name := rank]
    requires Rank(c, inputs).results[j].fusion.providerRanks == map[other := than] && rank < than
    ensures i < j
  {
    OneProviderResult(c, inputs, i, name, rank);
    OneProviderResult(c, inputs, j, other, than);
    BetterRankAddsMore(Rank(c, inputs).results[i].base, RrfK(c), rank, than);
    HigherScoreStandsFirst(c, inputs, i, j);
  }

  /** The k of the fusion is the requested one when that is positive, and 60 otherwise. */
  lemma {:induction false} RequestedK<T>(c: Reading<T>)
    ensures c.requestedK.Some? && c.requestedK.value > 0.0 ==> RrfK(c) == c.requestedK.value
    ensures c.requestedK.None? || c.requestedK.value <= 0.0 ==> RrfK(c) == 60.0
  {
  }
}
