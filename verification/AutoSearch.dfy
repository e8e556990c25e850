/** The batch of engines behind `search-auto`: which are called, and where every record goes. */
module AutoSearch {
  import opened Wrappers
  import opened Permutations
  import opened FusionRanker
  import opened CandidateRanker

  datatype EngineOutcome =
    | SuccessWithContent | SuccessEmpty | HttpError | TransportError | TimedOut | ProtocolError | Cancelled

  datatype Engine = Engine(name: string, tags: set<string>)

  datatype EngineResult<T> = EngineResult(engine: Engine, outcome: EngineOutcome, records: seq<T>)

  const DefaultEngineCalls := 8

  /** `boundedEngineCalls`: None is an absent option, Some(None) one that is no finite number. */
  function BoundedEngineCalls(value: Option<Option<real>>, engines: nat): (r: nat)
    ensures r <= engines
    ensures !(value.Some? && value.value.Some?) ==> r <= DefaultEngineCalls && (r == engines || r == DefaultEngineCalls)
    ensures value.Some? && value.value.Some? ==>
      (r > 0 ==> r as real <= value.value.value) && (r < engines ==> value.value.value < (r + 1) as real)
  {
    var bounded := match value
                   case Some(Some(requested)) => requested.Floor
                   case _ => DefaultEngineCalls;
    if bounded < 0 then 0 else if bounded < engines then bounded else engines
  }

  /**
   `selectEngines`: an entry of the scope is a name or a capability tag, lower-cased; None
   is an absent or empty scope.
   */
  predicate InScope(wanted: set<string>, engine: Engine) {
    engine.name in wanted || exists tag :: tag in engine.tags && tag in wanted
  }

  function SelectEngines(engines: seq<Engine>, scope: Option<set<string>>): seq<Engine> {
    if scope.None? then engines else Filter((engine: Engine) => InScope(scope.value, engine), engines)
  }

  /** `slice(0, limit)`: a negative limit counts from the end. */
  function SliceTo<T>(s: seq<T>, limit: int): (r: seq<T>)
    ensures r <= s
    ensures |r| == if limit >= |s| then |s| else if limit >= 0 then limit else if |s| + limit >= 0 then |s| + limit else 0
  {
    if limit >= |s| then s
    else if limit >= 0 then s[..limit]
    else if |s| + limit >= 0 then s[..|s| + limit]
    else []
  }

  function Records<T>(results: seq<EngineResult<T>>): seq<T> {
    if results == [] then [] else Records(results[..|results| - 1]) + results[|results| - 1].records
  }

  function RecordCount<T>(results: seq<EngineResult<T>>): int {
    Total((r: EngineResult<T>) => |r.records|, results)
  }

  datatype Response<T> = Response(
    results: seq<Candidate<T>>, unique: nat, duplicates: nat, filtered: nat, outputLimited: nat, outcome: EngineOutcome)

  predicate AnyOutcome<T>(results: seq<EngineResult<T>>, outcome: EngineOutcome) {
    exists i :: 0 <= i < |results| && results[i].outcome == outcome
  }

  /** The first failure in the order of priority; an empty success when no engine failed in these ways. */
  function EmptyOutcome<T>(results: seq<EngineResult<T>>): EngineOutcome {
    if AnyOutcome(results, TimedOut) then TimedOut
    else if AnyOutcome(results, HttpError) then HttpError
    else if AnyOutcome(results, TransportError) then TransportError
    else if AnyOutcome(results, Cancelled) then Cancelled
    else SuccessEmpty
  }

  const FailurePriority := [TimedOut, HttpError, TransportError, Cancelled]

  /** The outcome is the failure of some engine that comes first in the order of priority, or that of no failure. */
  lemma {:induction false} EmptyOutcomeIsFirstFailure<T>(results: seq<EngineResult<T>>)
    ensures EmptyOutcome(results) == SuccessEmpty || EmptyOutcome(results) in FailurePriority
    ensures EmptyOutcome(results) == SuccessEmpty ==>
      forall i :: 0 <= i < |results| ==> results[i].outcome !in FailurePriority
    ensures forall k :: 0 <= k < 4 && EmptyOutcome(results) == FailurePriority[k] ==>
      && (exists i :: 0 <= i < |results| && results[i].outcome == FailurePriority[k])
      && (forall i, j :: 0 <= i < |results| && 0 <= j < k ==> results[i].outcome != FailurePriority[j])
  {
  }

  method AggregateEmptyOutcome<T>(results: seq<EngineResult<T>>) returns (r: EngineOutcome)
    ensures r == EmptyOutcome(results)
  {
    var priority := [TimedOut, HttpError, TransportError, Cancelled];
    var i := 0;
    while i < 4
      invariant 0 <= i <= 4
      invariant i >= 1 ==> !AnyOutcome(results, TimedOut)
      invariant i >= 2 ==> !AnyOutcome(results, HttpError)
      invariant i >= 3 ==> !AnyOutcome(results, TransportError)
      invariant i >= 4 ==> !AnyOutcome(results, Cancelled)
    {
      if AnyOutcome(results, priority[i]) {
        return priority[i];
      }
      i := i + 1;
    }
    r := SuccessEmpty;
  }

  lemma {:induction false} RecordsAreCounted<T>(results: seq<EngineResult<T>>)
    ensures |Records(results)| == RecordCount(results)
  {
    if results != [] {
      RecordsAreCounted(results[..|results| - 1]);
    }
  }

  method OutcomeOf<T>(cancelled: bool, expired: bool, output: nat, results: seq<EngineResult<T>>)
    returns (r: EngineOutcome)
    ensures r == if cancelled then Cancelled else if expired then TimedOut
                 else if output > 0 then SuccessWithContent else EmptyOutcome(results)
  {
    if cancelled { return Cancelled; }
    if expired { return TimedOut; }
    if output > 0 { return SuccessWithContent; }
    r := AggregateEmptyOutcome(results);
  }

  /**
   `search`: `aborted` and `cancelled` are the state of the caller's signal before and
   after the engines answer, `expired` that of the deadline.
   */
  method Search<T(!new)>(c: Reading<T>, engines: seq<Engine>, scope: Option<set<string>>, calls: Option<Option<real>>,
                         limit: int, answer: Engine -> EngineResult<T>, aborted: bool, cancelled: bool, expired: bool)
    returns (r: Response<T>, engineResults: seq<EngineResult<T>>)
    ensures |engineResults| <= BoundedEngineCalls(calls, |engines|)
    ensures aborted ==> engineResults == [] && r == Response([], 0, 0, 0, 0, Cancelled)
    ensures !aborted ==>
      engineResults == Map(answer, SliceTo(SelectEngines(engines, scope), BoundedEngineCalls(calls, |engines|)))
    ensures RecordCount(engineResults) == |r.results| + r.outputLimited + r.filtered + r.duplicates
    ensures !aborted ==>
      var k := Rank(c, Records(engineResults));
      && r.results == SliceTo(k.results, limit) && r.unique == |k.results| && r.duplicates == k.rejected.duplicate
      && r.filtered == k.rejected.invalid + k.rejected.wrapper + k.rejected.quality + k.rejected.constraint
                       + k.rejected.relevance
    ensures r.unique == |r.results| + r.outputLimited
    ensures StrictlyOrdered(r.results) && DistinctUrls(r.results)
    ensures limit >= 0 ==> |r.results| <= limit
    ensures r.outcome == if aborted || cancelled then Cancelled else if expired then TimedOut
                         else if r.results != [] then SuccessWithContent else EmptyOutcome(engineResults)
  {
    if aborted {
      return Response([], 0, 0, 0, 0, Cancelled), [];
    }
    var scoped := SelectEngines(engines, scope);
    var eligible := SliceTo(scoped, BoundedEngineCalls(calls, |engines|));
    engineResults := Map(answer, eligible);
    var ranked := RankCandidates(c, Records(engineResults));
    var results := SliceTo(ranked.results, limit);
    var rejected := ranked.rejected;
    RecordsAreCounted(engineResults);
    EveryInputIsCountedOnce(c, Records(engineResults));
    ResultsAreOrderedAndDistinct(c, Records(engineResults));
    var outcome := OutcomeOf(cancelled, expired, |results|, engineResults);
    r := Response(results, |ranked.results|, rejected.duplicate,
                  rejected.invalid + rejected.wrapper + rejected.quality + rejected.constraint + rejected.relevance,
                  |ranked.results| - |results|, outcome);
  }
}
