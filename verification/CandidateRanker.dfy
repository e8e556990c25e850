/** `rankCandidates` in its own form: loops that fill counters, maps and lists. */
module CandidateRanker {
  import opened Wrappers
  import opened Permutations
  import opened RankFusion
  import opened FusionRanker

  method CountDocument(frequency: map<string, nat>, tokens: set<string>) returns (r: map<string, nat>)
    ensures r == CountTokens(frequency, tokens)
  {
    r := frequency;
    var left := tokens;
    while left != {}
      invariant left <= tokens
      invariant r == CountTokens(frequency, tokens - left)
      decreases left
    {
      var token :| token in left;
      r := r[token := (if token in r then r[token] else 0) + 1];
      left := left - {token};
    }
    assert tokens - left == tokens;
  }

  method BuildTermStatistics<T(!new)>(c: Reading<T>, pending: seq<Pending<T>>) returns (r: Statistics)
    ensures r == StatisticsOf(c, Documents(pending))
  {
    var documents: seq<Pending<T>> := [];
    var i := 0;
    while i < |pending|
      invariant 0 <= i <= |pending|
      invariant documents == Documents(pending[..i])
    {
      assert pending[..i + 1][..i] == pending[..i];
      if !HasUrl(documents, pending[i].url) {
        documents := documents + [pending[i]];
      }
      i := i + 1;
    }
    assert pending[..i] == pending;
    var frequency: map<string, nat> := map[];
    i := 0;
    while i < |documents|
      invariant 0 <= i <= |documents|
      invariant frequency == Frequencies(c, documents[..i])
    {
      assert documents[..i + 1][..i] == documents[..i];
      frequency := CountDocument(frequency, c.tokens(documents[i].input));
      i := i + 1;
    }
    assert documents[..i] == documents;
    if documents == [] {
      return Statistics(1, map[], 1.0);
    }
    r := Statistics(|documents|, frequency, (Total(Length(c), documents) as real) / (|documents| as real));
  }

  /** The first loop: reject or collect. */
  method CollectPending<T>(c: Reading<T>, inputs: seq<T>)
    returns (pending: seq<Pending<T>>, invalid: nat, wrapper: nat, quality: nat, constraint: nat)
    ensures pending == Collect(c, inputs)
    ensures invalid == CountVerdict(c, inputs, InvalidUrl) && wrapper == CountVerdict(c, inputs, UnresolvedWrapper)
    ensures quality == CountVerdict(c, inputs, MissingText) && constraint == CountVerdict(c, inputs, QueryConstraint)
  {
    pending := [];
    invalid, wrapper, quality, constraint := 0, 0, 0, 0;
    var i := 0;
    while i < |inputs|
      invariant 0 <= i <= |inputs|
      invariant pending == Collect(c, inputs[..i])
      invariant invalid == CountVerdict(c, inputs[..i], InvalidUrl)
      invariant wrapper == CountVerdict(c, inputs[..i], UnresolvedWrapper)
      invariant quality == CountVerdict(c, inputs[..i], MissingText)
      invariant constraint == CountVerdict(c, inputs[..i], QueryConstraint)
    {
      var input, index := inputs[i], i;
      assert inputs[..i + 1][..i] == inputs[..i] && inputs[..i + 1][i] == input;
      i := i + 1;
      if c.canonicalUrl(input).None? {
        invalid := invalid + 1;
        continue;
      }
      if c.isWrapper(input) {
        wrapper := wrapper + 1;
        continue;
      }
      if !c.hasText(input) {
        quality := quality + 1;
        continue;
      }
      if !c.passes(input) {
        constraint := constraint + 1;
        continue;
      }
      pending := pending + [PendingOf(c, input, index)];
    }
    assert inputs[..i] == inputs;
  }

  method AddPending<T>(groups: seq<Group<T>>, scored: Scored<T>, occurrence: Occurrence)
    returns (r: seq<Group<T>>, isNew: bool)
    ensures r == AddItem(groups, scored, occurrence)
    ensures |r| == |groups| + if isNew then 1 else 0
  {
    var existing := FindGroup(groups, scored.url);
    if existing.None? {
      return groups + [Group(scored, [occurrence])], true;
    }
    var group := groups[existing.value];
    var representative := if scored.score.base > group.representative.score.base then scored else group.representative;
    r, isNew := groups[existing.value := Group(representative, group.occurrences + [occurrence])], false;
  }

  lemma {:induction false} GroupSnoc<T>(c: Reading<T>, statistics: Statistics, items: seq<Pending<T>>, item: Pending<T>)
    ensures GroupAll(c, statistics, items + [item]) ==
      AddItem(GroupAll(c, statistics, items), ScoredOf(c, item, statistics), item.occurrence)
  {
    assert (items + [item])[..|items|] == items;
  }

  /** The second loop: score, drop the irrelevant and group the rest by URL. */
  method GroupPending<T>(c: Reading<T>, statistics: Statistics, pending: seq<Pending<T>>)
    returns (groups: seq<Group<T>>, relevance: nat, duplicate: nat)
    ensures groups == GroupAll(c, statistics, Filter(Relevant(c, statistics), pending))
    ensures relevance == |pending| - |Filter(Relevant(c, statistics), pending)|
    ensures duplicate == |Filter(Relevant(c, statistics), pending)| - |groups|
  {
    groups := [];
    relevance, duplicate := 0, 0;
    ghost var keep := Relevant(c, statistics);
    ghost var kept: seq<Pending<T>> := [];
    var i := 0;
    while i < |pending|
      invariant 0 <= i <= |pending|
      invariant kept == Filter(keep, pending[..i])
      invariant groups == GroupAll(c, statistics, kept)
      invariant relevance == i - |kept| && duplicate == |kept| - |groups|
    {
      var item := pending[i];
      FilterNext(keep, pending, i);
      assert keep(item) <==> IsRelevant(c, statistics, item.input);
      i := i + 1;
      var scored := ScoredOf(c, item, statistics);
      if c.queryHasTokens && scored.score.base - scored.score.pageShape <= 0.0 {
        relevance := relevance + 1;
        continue;
      }
      GroupSnoc(c, statistics, kept, item);
      kept := kept + [item];
      var isNew;
      groups, isNew := AddPending(groups, scored, item.occurrence);
      if !isNew {
        duplicate := duplicate + 1;
      }
    }
    assert pending[..i] == pending;
  }

  lemma {:induction false} AcceptIs<T>(c: Reading<T>, group: Group<T>, fusion: Fusion<string>)
    requires fusion == Fuse(c.anonymous, group.occurrences, RrfK(c))
    ensures var representative := group.representative;
      Accept(c, group) == Candidate(representative.input, representative.url,
                                    representative.score.base + fusion.rrfScore, representative.score.base, fusion)
  {
  }

  method AcceptGroups<T>(c: Reading<T>, groups: seq<Group<T>>) returns (accepted: seq<Candidate<T>>)
    ensures accepted == AcceptAll(c, groups)
  {
    accepted := [];
    for i := 0 to |groups|
      invariant |accepted| == i
      invariant forall k :: 0 <= k < i ==> accepted[k] == Accept(c, groups[k])
    {
      var representative := groups[i].representative;
      var fusion := ReciprocalRankFusion(c.anonymous, groups[i].occurrences, RrfK(c));
      AcceptIs(c, groups[i], fusion);
      accepted := accepted + [Candidate(representative.input, representative.url,
                                        representative.score.base + fusion.rrfScore, representative.score.base, fusion)];
    }
  }

  method RankCandidates<T(!new)>(c: Reading<T>, inputs: seq<T>) returns (r: Ranking<T>)
    ensures r == Rank(c, inputs)
  {
    var pending, invalid, wrapper, quality, constraint := CollectPending(c, inputs);
    var statistics := BuildTermStatistics(c, pending);
    var groups, relevance, duplicate := GroupPending(c, statistics, pending);
    var accepted := AcceptGroups(c, groups);
    r := Ranking(Sort(accepted), Rejected(invalid, wrapper, quality, constraint, relevance, duplicate));
  }
}
