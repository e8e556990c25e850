/**
 Accepted decisions that are lost when they are encoded and parsed again: one family for
 each of the three conditions of `AcceptedIsFixpointIff`.
 */
module LostFixpoints {
  import opened Wrappers
  import opened JsText
  import opened DecisionProtocol
  import opened DecisionFixpoint

  // ---------------------------------------------------------------------------
  // An answer that normalising makes blank
  // ---------------------------------------------------------------------------

  function PlainFinish(answer: string): Decision {
    Decision(Finish, [], [], [], Some(answer), [], [])
  }

  lemma {:induction false} PlainHead(answer: string)
    requires !Blank(answer) && |answer| <= 12000
    ensures HeadError(Finish, 0, 0, Arr([]), Str(answer)) == None
  {
  }

  lemma {:induction false} PlainCitations(norm: Norm, texts: seq<string>, answer: string)
    requires texts == []
    ensures ParseCitations(norm, Finish, [], [], texts, Some(answer), Arr([]), Arr([])) == Ok(PlainFinish(answer))
  {
  }

  lemma {:induction false} PlainFinishRest(norm: Norm, answer: string)
    requires !Blank(answer) && |answer| <= 12000
    ensures ParseRest(norm, Finish, [], [], Arr([]), Str(answer), Arr([]), Arr([]))
      == Ok(PlainFinish(NormalizeFinalAnswer(answer)))
  {
    PlainHead(answer);
    PlainCitations(norm, UncertaintiesOf(Arr([])), NormalizeFinalAnswer(answer));
    RestIsHeadAndCitations(norm, Finish, [], [], Arr([]), Str(answer), Arr([]), Arr([]));
  }

  lemma {:induction false} PlainFinishParses(norm: Norm, answer: string)
    requires !Blank(answer) && |answer| <= 12000
    ensures Parse(norm, Encode(PlainFinish(answer))) == Ok(PlainFinish(NormalizeFinalAnswer(answer)))
  {
    EnvelopeParses(norm, PlainFinish(answer));
    KindReads(Finish);
    PlainFinishRest(norm, answer);
  }

  lemma {:induction false} EscapedBreak()
    ensures !Blank("\\n") && NormalizeFinalAnswer("\\n") == "\n" && Blank("\n")
  {
    assert TrimStart("\\n") == "\\n";
    assert "\\n"[2..] == "";
    assert ReplaceAll("\\n", "\\n", "\n") == "\n" + ReplaceAll("", "\\n", "\n");
    assert TrimStart("\n") == TrimStart("") by { assert "\n"[1..] == ""; }
  }

  /** A finish whose answer is an escaped line break passes, and its normalised form does not. */
  lemma {:induction false} EscapedBlankAnswerIsNoFixpoint(norm: Norm)
    requires IsUrlNorm(norm)
    ensures Parse(norm, Encode(PlainFinish("\\n"))) == Ok(PlainFinish("\n"))
    ensures Parse(norm, Encode(PlainFinish("\n"))).Err?
  {
    EscapedBreak();
    PlainFinishParses(norm, "\\n");
    AcceptedIsFixpointIff(norm, Encode(PlainFinish("\\n")));
  }

  // ---------------------------------------------------------------------------
  // A URL that normalising makes too long
  // ---------------------------------------------------------------------------

  function PlainFetch(url: string): Decision {
    Decision(Fetch, [], [FetchAction(url, false)], [], None, [], [])
  }

  lemma {:induction false} PlainFetchRest(norm: Norm, fetches: seq<FetchAction>)
    requires |fetches| == 1
    ensures ParseRest(norm, Fetch, [], fetches, Arr([]), Null, Arr([]), Arr([]))
      == Ok(Decision(Fetch, [], fetches, [], None, [], []))
  {
    var none := UncertaintiesOf(Arr([]));
    assert none == [];
    RestIsHeadAndCitations(norm, Fetch, [], fetches, Arr([]), Null, Arr([]), Arr([]));
  }

  lemma {:induction false} RawFetchChecks(norm: Norm, raw: string, url: string)
    requires norm(raw) == Some(url) && !Blank(raw) && |raw| <= 2048
    ensures CheckFetch(norm, Some(Str(raw)), Some(Bool(false))) == Ok(FetchAction(url, false))
  {
  }

  lemma {:induction false} RawFetchReads(norm: Norm, raw: string, url: string)
    requires norm(raw) == Some(url) && !Blank(raw) && |raw| <= 2048
    ensures ReadFetch(norm, EncodeFetch(FetchAction(raw, false))) == Ok(FetchAction(url, false))
  {
    FetchFieldsRead(FetchAction(raw, false));
    FetchRecordReads(norm, EncodeFetch(FetchAction(raw, false)).fields);
    RawFetchChecks(norm, raw, url);
  }

  lemma {:induction false} OneFetchReads(norm: Norm, item: Json, action: FetchAction)
    requires ReadFetch(norm, item) == Ok(action)
    ensures ParseFetchActions(norm, [item], []) == Ok([action])
  {
    var none: seq<FetchAction> := [];
    assert [item][1..] == [] && none + [action] == [action];
    assert !HasUrl(none, action.url);
    FetchHead(norm, [item], none, action);
  }

  lemma {:induction false} ActionsBecomeRest(norm: Norm, kind: DecisionKind, searchActions: Json, fetchActions: Json,
                          fetches: seq<FetchAction>,
                          uncertainties: Json, answer: Json, evidence: Json, rawFindings: Json)
    requires searchActions == Arr([]) && fetchActions.Arr? && |fetchActions.items| <= MaxActions
    requires ParseFetchActions(norm, fetchActions.items, []) == Ok(fetches)
    ensures ParseFields(norm, Str(KindName(kind)), searchActions, fetchActions, uncertainties, answer, evidence, rawFindings)
      == ParseRest(norm, kind, [], fetches, uncertainties, answer, evidence, rawFindings)
  {
    KindReads(kind);
    assert ParseSearchActions(searchActions.items, []) == Ok([]);
  }

  lemma {:induction false} PlainFetchParses(norm: Norm, raw: string, url: string)
    requires norm(raw) == Some(url) && !Blank(raw) && |raw| <= 2048
    ensures Parse(norm, Encode(PlainFetch(raw))) == Ok(PlainFetch(url))
  {
    var item := EncodeFetch(FetchAction(raw, false));
    EnvelopeParses(norm, PlainFetch(raw));
    assert EncodeFetches([FetchAction(raw, false)]) == [item];
    assert EncodeSearches([]) == [] && EncodeStrings([]) == [] && EncodeFindings([]) == [];
    RawFetchReads(norm, raw, url);
    OneFetchReads(norm, item, FetchAction(url, false));
    ActionsBecomeRest(norm, Fetch, Arr([]), Arr([item]), [FetchAction(url, false)], Arr([]), Null, Arr([]), Arr([]));
    PlainFetchRest(norm, [FetchAction(url, false)]);
  }

  /** A URL that fits before it is normalised and not after: the fetch passes, and what it became does not. */
  lemma {:induction false} GrowingUrlIsNoFixpoint(norm: Norm, raw: string, url: string)
    requires IsUrlNorm(norm) && norm(raw) == Some(url) && !Blank(raw) && |raw| <= 2048 < |url|
    ensures Parse(norm, Encode(PlainFetch(raw))) == Ok(PlainFetch(url))
    ensures Parse(norm, Encode(PlainFetch(url))).Err?
  {
    PlainFetchParses(norm, raw, url);
    assert |PlainFetch(url).fetchActions[0].url| > 2048;
    AcceptedIsFixpointIff(norm, Encode(PlainFetch(raw)));
  }

  // ---------------------------------------------------------------------------
  // More citations than the envelope admits
  // ---------------------------------------------------------------------------

  /** A finish as a model may send it, with no citations of its own. */
  function FinishWith(answer: string, findings: seq<Finding>): Decision {
    Decision(Finish, [], [], [], Some(answer), [], findings)
  }

  function Derived(d: Decision): Decision {
    d.(evidenceUrls := AddAll([], CitedUrls(d.findings)))
  }

  lemma {:induction false} FinishCitations(norm: Norm, answer: string, findings: seq<Finding>, texts: seq<string>, evidence: Json,
                        rawFindings: Json)
    requires evidence == Arr([]) && rawFindings.Arr? && |rawFindings.items| <= MaxFindings && texts == []
    requires ParseFindings(norm, rawFindings.items, []) == Ok(findings)
    ensures ParseCitations(norm, Finish, [], [], texts, Some(answer), evidence, rawFindings)
      == Ok(Derived(FinishWith(answer, findings)))
  {
    var none: seq<string> := [];
    assert ParseUrls(norm, evidence.items, none) == Ok(none);
  }

  lemma {:induction false} FinishRest(norm: Norm, answer: string, findings: seq<Finding>, rawFindings: Json)
    requires !Blank(answer) && |answer| <= 12000 && NormalizeFinalAnswer(answer) == answer
    requires rawFindings.Arr? && |rawFindings.items| <= MaxFindings
    requires ParseFindings(norm, rawFindings.items, []) == Ok(findings)
    ensures ParseRest(norm, Finish, [], [], Arr([]), Str(answer), Arr([]), rawFindings)
      == Ok(Derived(FinishWith(answer, findings)))
  {
    PlainHead(answer);
    FinishCitations(norm, answer, findings, UncertaintiesOf(Arr([])), Arr([]), rawFindings);
    RestIsHeadAndCitations(norm, Finish, [], [], Arr([]), Str(answer), Arr([]), rawFindings);
  }

  lemma {:induction false} FinishParses(norm: Norm, answer: string, findings: seq<Finding>)
    requires !Blank(answer) && |answer| <= 12000 && NormalizeFinalAnswer(answer) == answer
    requires FindingsOk(norm, findings) && FindingsFit(findings) && |findings| <= MaxFindings
    ensures Parse(norm, Encode(FinishWith(answer, findings))) == Ok(Derived(FinishWith(answer, findings)))
  {
    var rawFindings := Arr(EncodeFindings(findings));
    EnvelopeParses(norm, FinishWith(answer, findings));
    assert EncodeSearches([]) == [] && EncodeFetches([]) == [] && EncodeStrings([]) == [];
    ActionsBecomeRest(norm, Finish, Arr([]), Arr([]), [], Arr([]), Str(answer), Arr([]), rawFindings);
    FindingListReads(norm, findings);
    FinishRest(norm, answer, findings, rawFindings);
  }

  lemma {:induction false} PlainText(text: string)
    requires |text| == 1 && !IsSpace(text[0]) && text[0] != '\\'
    ensures Clean(text, 100) && !Blank(text) && NormalizeFinalAnswer(text) == text
  {
    assert TrimStart(text) == text && TrimEnd(text) == text;
  }

  /** The URLs of finding `i` of six: twenty for each of the first five and the rest for the last. */
  function Share(urls: seq<string>, i: nat): seq<string>
    requires i < 6 && |urls| >= 100
  {
    urls[20 * i..if i < 5 then 20 * i + 20 else |urls|]
  }

  function Digit(i: nat): string
    requires i < 6
  {
    [['1', '2', '3', '4', '5', '6'][i]]
  }

  function SixFindings(urls: seq<string>): (findings: seq<Finding>)
    requires |urls| >= 100
    ensures |findings| == 6
  {
    seq(6, i requires 0 <= i < 6 => Finding(Digit(i), Digit(i), Confirmed, Share(urls, i)))
  }

  lemma {:induction false} SixFindingsDiffer(urls: seq<string>)
    requires 100 <= |urls|
    ensures FindingsDiffer(SixFindings(urls))
  {
    forall i: nat, k: nat | i < k < 6 ensures Digit(i) != Digit(k) {
      assert Digit(i)[0] != Digit(k)[0];
    }
  }

  lemma {:induction false} SharedFindingIsOk(norm: Norm, digit: string, share: seq<string>)
    requires Clean(digit, 100) && UrlsOk(norm, share) && |share| <= 20
    ensures FindingOk(norm, Finding(digit, digit, Confirmed, share))
  {
  }

  lemma {:induction false} SixFindingsAreOk(norm: Norm, urls: seq<string>)
    requires 100 <= |urls| <= 120 && UrlsOk(norm, urls) && Fit(urls)
    ensures FindingsOk(norm, SixFindings(urls)) && FindingsFit(SixFindings(urls))
  {
    var findings := SixFindings(urls);
    SixFindingsDiffer(urls);
    forall i | 0 <= i < |findings| ensures FindingOk(norm, findings[i]) && Fit(findings[i].evidenceUrls) {
      PlainText(Digit(i));
      ShareIsOk(norm, urls, i);
      SharedFindingIsOk(norm, Digit(i), Share(urls, i));
    }
  }

  lemma {:induction false} ShareIsOk(norm: Norm, urls: seq<string>, i: nat)
    requires i < 6 && 100 <= |urls| <= 120 && UrlsOk(norm, urls) && Fit(urls)
    ensures UrlsOk(norm, Share(urls, i)) && Fit(Share(urls, i)) && |Share(urls, i)| <= 20
  {
    var share := Share(urls, i);
    forall k | 0 <= k < |share| ensures Normal(norm, share[k]) && |share[k]| <= 2048 {
      assert share[k] == urls[20 * i + k];
    }
    forall j, k | 0 <= j < k < |share| ensures share[j] != share[k] {
      assert share[j] == urls[20 * i + j] && share[k] == urls[20 * i + k];
    }
  }

  lemma {:induction false} Slices<T>(s: seq<T>, from: nat, to: nat)
    requires from <= to <= |s|
    ensures s[from..] == s[from..to] + s[to..]
  {
  }

  lemma {:induction false} SharesAddUp(urls: seq<string>, i: nat)
    requires i <= 6 && 100 <= |urls|
    ensures CitedUrls(SixFindings(urls)[i..]) == urls[if i < 6 then 20 * i else |urls|..]
    decreases 6 - i
  {
    if i < 6 {
      SharesAddUp(urls, i + 1);
      Step(SixFindings(urls), i);
      var next := if i < 5 then 20 * i + 20 else |urls|;
      Slices(urls, 20 * i, next);
    }
  }

  lemma {:induction false} NothingTwice(before: seq<string>, urls: seq<string>)
    requires forall i, k :: 0 <= i < k < |before + urls| ==> (before + urls)[i] != (before + urls)[k]
    ensures AddAll(before, urls) == before + urls
    decreases |urls|
  {
    if urls != [] {
      assert (before + urls)[|before|] == urls[0];
      forall i | 0 <= i < |before| ensures before[i] != urls[0] {
        assert (before + urls)[i] == before[i];
      }
      assert before + [urls[0]] + urls[1..] == before + urls;
      NothingTwice(before + [urls[0]], urls[1..]);
    } else {
      assert before + urls == before;
    }
  }

  /** Six findings that together cite more than a hundred URLs: the finish passes, and what it became does not. */
  lemma {:induction false} ManyCitationsAreNoFixpoint(norm: Norm, answer: string, urls: seq<string>)
    requires !Blank(answer) && |answer| <= 12000 && NormalizeFinalAnswer(answer) == answer
    requires IsUrlNorm(norm) && 100 < |urls| <= 120 && UrlsOk(norm, urls) && Fit(urls)
    ensures var d := FinishWith(answer, SixFindings(urls));
      && Parse(norm, Encode(d)) == Ok(d.(evidenceUrls := urls))
      && Parse(norm, Encode(d.(evidenceUrls := urls))).Err?
  {
    var findings := SixFindings(urls);
    SixFindingsAreOk(norm, urls);
    SharesAddUp(urls, 0);
    assert findings[0..] == findings && urls[0..] == urls;
    var none: seq<string> := [];
    assert none + urls == urls;
    NothingTwice(none, urls);
    FinishParses(norm, answer, findings);
    AcceptedIsFixpointIff(norm, Encode(FinishWith(answer, findings)));
  }

  /** A URL parser that takes every text that is not blank as it is, and a hundred and one texts of its own. */
  function Verbatim(): Norm {
    (raw: string) => if Blank(raw) then None else Some(raw)
  }

  function Tally(n: nat): (r: string)
    ensures |r| == n
  {
    seq(n, _ => 'a')
  }

  function Tallies(): (urls: seq<string>)
    ensures |urls| == 101 && forall i :: 0 <= i < 101 ==> urls[i] == Tally(i + 1)
  {
    seq(101, i requires 0 <= i < 101 => Tally(i + 1))
  }

  lemma {:induction false} TallyIsNotBlank(n: nat)
    requires n > 0
    ensures !Blank(Tally(n))
  {
    var text := Tally(n);
    assert !IsSpace(text[0]) && !IsSpace(text[n - 1]);
    assert TrimStart(text) == text && TrimEnd(text) == text;
  }

  lemma {:induction false} VerbatimIsUrlNorm()
    ensures IsUrlNorm(Verbatim())
  {
    forall raw, url | Verbatim()(raw) == Some(url) ensures Verbatim()(url) == Some(url) && !Blank(url) {
      assert url == raw;
    }
  }

  lemma {:induction false} TallyIsNormal(n: nat)
    requires n > 0
    ensures Normal(Verbatim(), Tally(n))
  {
    TallyIsNotBlank(n);
  }

  lemma {:induction false} TalliesAreUrls()
    ensures UrlsOk(Verbatim(), Tallies()) && Fit(Tallies())
  {
    var urls := Tallies();
    forall i | 0 <= i < |urls| ensures Normal(Verbatim(), urls[i]) {
      TallyIsNormal(i + 1);
    }
    forall i, k | 0 <= i < k < |urls| ensures urls[i] != urls[k] {
      assert |urls[i]| == i + 1 && |urls[k]| == k + 1;
    }
  }

  /** Such a finish, with any letter for an answer. */
  lemma {:induction false} HundredAndOneCitations(answer: string)
    requires |answer| == 1 && 'a' <= answer[0] <= 'z'
    ensures var d := FinishWith(answer, SixFindings(Tallies()));
      && Parse(Verbatim(), Encode(d)) == Ok(d.(evidenceUrls := Tallies()))
      && Parse(Verbatim(), Encode(d.(evidenceUrls := Tallies()))).Err?
  {
    VerbatimIsUrlNorm();
    TalliesAreUrls();
    PlainText(answer);
    ManyCitationsAreNoFixpoint(Verbatim(), answer, Tallies());
  }
}
