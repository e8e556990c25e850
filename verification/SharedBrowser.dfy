/**
 `SharedBrowserManager` as a whole: every `render` asks for a permit, then for the
 browser, and gives the permit back in its `finally` block, while closes, aborts and
 launches go on around it. A render has the number of its permit request.
 */
module SharedBrowser {
  import opened Wrappers
  import Pool = PermitPool
  import Gen = BrowserGenerations

  type RenderId = Pool.RequestId

  datatype Phase =
    | Acquiring
    | Launching(launch: Gen.LaunchId)
    | Rendering(browser: Gen.LaunchId)
    | Finished

  /** `releases` counts the calls of the permit's release function. */
  datatype Render = Render(phase: Phase, releases: nat)

  datatype Manager = Manager(permits: Pool.Permits, core: Gen.Core, renders: map<RenderId, Render>)

  datatype Event =
    | StartRender(signal: Option<Pool.SignalId>)
    | ResumeRender(render: RenderId, launchThrows: bool)
    | LaunchAnswered(render: RenderId)
    | EndRender(render: RenderId)
    | SignalAborts(fired: Pool.SignalId)
    | AbortListener(render: RenderId)
    | Close
    | Browser(event: Gen.Event)

  function Init(limit: nat, maxQueue: nat): Manager {
    Manager(Pool.Init(limit, maxQueue), Gen.Init, map[])
  }

  predicate InPhase(m: Manager, r: RenderId, phase: Phase) {
    r in m.renders && m.renders[r].phase == phase
  }

  function SetPhase(m: Manager, r: RenderId, phase: Phase): Manager
    requires r in m.renders
  {
    m.(renders := m.renders[r := m.renders[r].(phase := phase)])
  }

  /** The `finally` block of `render`. */
  function Finish(m: Manager, r: RenderId): Manager
    requires r in m.renders
  {
    m.(renders := m.renders[r := Render(Finished, m.renders[r].releases + 1)],
       permits := Pool.Step(m.permits, Pool.Release(r)))
  }

  predicate IsAborted(m: Manager, r: RenderId) {
    r in m.permits.requests && Pool.IsAborted(m.permits, m.permits.requests[r].signal)
  }

  /** What follows the await of `acquire`. */
  function Resume(m: Manager, r: RenderId, launchThrows: bool): Manager
    requires InPhase(m, r, Acquiring) && r in m.permits.requests
  {
    if m.permits.requests[r].status.Rejected? then SetPhase(m, r, Finished)
    else if IsAborted(m, r) then Finish(m, r)
    else
      var m1 := m.(core := Gen.Step(m.core, Gen.GetBrowser(launchThrows)));
      match Gen.AnswerOf(m.core, launchThrows)
      case Got(l) => SetPhase(m1, r, Rendering(l))
      case WaitFor(l) => SetPhase(m1, r, Launching(l))
      case Refused => Finish(m1, r)
  }

  /** What follows the await of the launch promise. */
  function Answered(m: Manager, r: RenderId): Manager
    requires r in m.renders && m.renders[r].phase.Launching?
  {
    var l := m.renders[r].phase.launch;
    if Gen.InPhase(m.core, l, Gen.Done(true)) && !IsAborted(m, r) then SetPhase(m, r, Rendering(l))
    else Finish(m, r)
  }

  predicate Enabled(m: Manager, e: Event) {
    match e
    case StartRender(_) => true
    case ResumeRender(r, _) =>
      InPhase(m, r, Acquiring) && r in m.permits.requests && m.permits.requests[r].status != Pool.Waiting
    case LaunchAnswered(r) =>
      && r in m.renders && m.renders[r].phase.Launching?
      && Gen.LaunchIsSettled(m.core, Some(m.renders[r].phase.launch))
    case EndRender(r) => r in m.renders && m.renders[r].phase.Rendering?
    case SignalAborts(_) => true
    case AbortListener(_) => true
    case Close => true
    case Browser(event) => !event.GetBrowser? && !event.Close? && Gen.Enabled(m.core, event)
  }

  function Step(m: Manager, e: Event): Manager
    requires Enabled(m, e)
  {
    match e
    case StartRender(signal) =>
      if m.core.closing.Some? then m
      else
        m.(permits := Pool.Step(m.permits, Pool.Acquire(signal)),
           renders := m.renders[m.permits.next := Render(Acquiring, 0)])
    case ResumeRender(r, launchThrows) => Resume(m, r, launchThrows)
    case LaunchAnswered(r) => Answered(m, r)
    case EndRender(r) => Finish(m, r)
    case SignalAborts(signal) => m.(permits := Pool.Step(m.permits, Pool.SignalAborts(signal)))
    case AbortListener(r) => m.(permits := Pool.Step(m.permits, Pool.AbortListener(r)))
    case Close =>
      if m.core.closing.Some? then m
      else m.(permits := Pool.Step(m.permits, Pool.RejectQueued), core := Gen.Step(m.core, Gen.Close))
    case Browser(event) => m.(core := Gen.Step(m.core, event))
  }

  // ---------------------------------------------------------------------------
  // The invariant
  // ---------------------------------------------------------------------------

  /** How far a render has come agrees with what became of its permit request. */
  ghost predicate RenderOk(m: Manager, r: RenderId)
    requires r in m.renders
  {
    && r in m.permits.requests
    && var status := m.permits.requests[r].status;
       match m.renders[r].phase
       case Acquiring => status != Pool.Released && m.renders[r].releases == 0
       case Launching(_) => status == Pool.Granted && m.renders[r].releases == 0
       case Rendering(_) => status == Pool.Granted && m.renders[r].releases == 0
       case Finished =>
         || (status == Pool.Released && m.renders[r].releases == 1)
         || (status.Rejected? && m.renders[r].releases == 0)
  }

  ghost predicate Inv(m: Manager) {
    && Pool.Inv(m.permits)
    && Gen.Inv(m.core)
    && m.renders.Keys == m.permits.requests.Keys
    && (forall r :: r in m.renders ==> RenderOk(m, r))
  }

  lemma {:induction false} FinishKeepsInv(m: Manager, r: RenderId)
    requires Inv(m) && r in m.renders && m.permits.requests[r].status == Pool.Granted && m.renders[r].releases == 0
    ensures Inv(Finish(m, r))
  {
    var n := Finish(m, r);
    Pool.ReleaseKeepsInv(m.permits, r);
    forall t | t in n.renders ensures RenderOk(n, t) { assert RenderOk(m, t); }
  }

  /** A step of the pool other than a release or an acquire fits under the renders. */
  lemma {:induction false} PoolStepKeepsInv(m: Manager, e: Pool.Event)
    requires Inv(m) && !e.Release? && !e.Acquire?
    ensures Inv(m.(permits := Pool.Step(m.permits, e)))
  {
    var n := m.(permits := Pool.Step(m.permits, e));
    Pool.StepKeepsInv(m.permits, e);
    forall t | t in n.renders ensures RenderOk(n, t) { assert RenderOk(m, t); }
  }

  /** A new render and its request fit beside the renders there are. */
  lemma {:induction false} NewRenderFits(m: Manager, permits: Pool.Permits)
    requires forall t :: t in m.renders ==> RenderOk(m, t)
    requires Pool.Frozen(m.permits, permits) && m.permits.next !in m.renders
    requires m.permits.next in permits.requests && permits.requests[m.permits.next].status != Pool.Released
    ensures var n := m.(permits := permits, renders := m.renders[m.permits.next := Render(Acquiring, 0)]);
      forall t :: t in n.renders ==> RenderOk(n, t)
  {
    var n := m.(permits := permits, renders := m.renders[m.permits.next := Render(Acquiring, 0)]);
    forall t | t in n.renders ensures RenderOk(n, t) {
      if t != m.permits.next { assert RenderOk(m, t); }
    }
  }

  lemma {:induction false} AcquireKeepsInv(m: Manager, signal: Option<Pool.SignalId>)
    requires Inv(m)
    ensures Inv(m.(permits := Pool.Step(m.permits, Pool.Acquire(signal)),
                   renders := m.renders[m.permits.next := Render(Acquiring, 0)]))
  {
    Pool.AcquireKeepsInv(m.permits, signal);
    NewRenderFits(m, Pool.DoAcquire(m.permits, signal));
  }

  lemma {:induction false} CoreStepKeepsInv(m: Manager, e: Gen.Event)
    requires Inv(m) && Gen.Enabled(m.core, e)
    ensures Inv(m.(core := Gen.Step(m.core, e)))
  {
    var n := m.(core := Gen.Step(m.core, e));
    Gen.StepKeepsInv(m.core, e);
    forall t | t in n.renders ensures RenderOk(n, t) { assert RenderOk(m, t); }
  }

  lemma {:induction false} SetPhaseKeepsInv(m: Manager, r: RenderId, phase: Phase)
    requires Inv(m) && r in m.renders && RenderOk(SetPhase(m, r, phase), r)
    ensures Inv(SetPhase(m, r, phase))
  {
    var n := SetPhase(m, r, phase);
    forall t | t in n.renders ensures RenderOk(n, t) { assert RenderOk(m, t); }
  }

  lemma {:induction false} StepKeepsInv(m: Manager, e: Event)
    requires Inv(m) && Enabled(m, e)
    ensures Inv(Step(m, e))
  {
    match e
    case StartRender(signal) => AcquireKeepsInv(m, signal);
    case ResumeRender(r, launchThrows) =>
      assert RenderOk(m, r);
      if m.permits.requests[r].status.Rejected? {
        SetPhaseKeepsInv(m, r, Finished);
      } else if IsAborted(m, r) {
        FinishKeepsInv(m, r);
      } else {
        var m1 := m.(core := Gen.Step(m.core, Gen.GetBrowser(launchThrows)));
        CoreStepKeepsInv(m, Gen.GetBrowser(launchThrows));
        match Gen.AnswerOf(m.core, launchThrows)
        case Got(l) => SetPhaseKeepsInv(m1, r, Rendering(l));
        case WaitFor(l) => SetPhaseKeepsInv(m1, r, Launching(l));
        case Refused => FinishKeepsInv(m1, r);
      }
    case LaunchAnswered(r) =>
      assert RenderOk(m, r);
      var l := m.renders[r].phase.launch;
      if Gen.InPhase(m.core, l, Gen.Done(true)) && !IsAborted(m, r) {
        SetPhaseKeepsInv(m, r, Rendering(l));
      } else {
        FinishKeepsInv(m, r);
      }
    case EndRender(r) =>
      assert RenderOk(m, r);
      FinishKeepsInv(m, r);
    case SignalAborts(signal) => PoolStepKeepsInv(m, Pool.SignalAborts(signal));
    case AbortListener(r) => PoolStepKeepsInv(m, Pool.AbortListener(r));
    case Close =>
      if m.core.closing.None? {
        PoolStepKeepsInv(m, Pool.RejectQueued);
        CoreStepKeepsInv(m.(permits := Pool.Step(m.permits, Pool.RejectQueued)), Gen.Close);
      }
    case Browser(event) => CoreStepKeepsInv(m, event);
  }

  // ---------------------------------------------------------------------------
  // Every interleaving
  // ---------------------------------------------------------------------------

  ghost predicate StepAt(b: seq<Manager>, es: seq<Event>, i: nat)
    requires 0 < i < |b| == |es| + 1
  {
    Enabled(b[i - 1], es[i - 1]) && b[i] == Step(b[i - 1], es[i - 1])
  }

  ghost predicate Behavior(b: seq<Manager>, es: seq<Event>) {
    && |b| == |es| + 1
    && (exists limit: nat, maxQueue: nat :: b[0] == Init(limit, maxQueue))
    && (forall i :: 0 < i < |b| ==> StepAt(b, es, i))
  }

  lemma {:induction false} BehaviorKeepsInv(b: seq<Manager>, es: seq<Event>, i: nat)
    requires Behavior(b, es) && i < |b|
    ensures Inv(b[i])
  {
    if i == 0 {
      Pool.InitIsInv(b[0].permits.limit, b[0].permits.maxQueue);
    } else {
      BehaviorKeepsInv(b, es, i - 1);
      assert StepAt(b, es, i);
      StepKeepsInv(b[i - 1], es[i - 1]);
    }
  }

  /** A state that some behavior ends in. */
  ghost predicate Reachable(p: Manager) {
    exists b, es :: Behavior(b, es) && b[|es|] == p
  }

  lemma {:induction false} InitIsReachable(limit: nat, maxQueue: nat)
    ensures Reachable(Init(limit, maxQueue))
  {
    var b, es: seq<Event> := [Init(limit, maxQueue)], [];
    assert Behavior(b, es);
    assert b[|es|] == Init(limit, maxQueue);
  }

  lemma {:induction false} LongerBehavior(b: seq<Manager>, es: seq<Event>, e: Event)
    requires Behavior(b, es) && Enabled(b[|es|], e)
    ensures Behavior(b + [Step(b[|es|], e)], es + [e])
  {
    var longer, more := b + [Step(b[|es|], e)], es + [e];
    forall i | 0 < i < |longer| ensures StepAt(longer, more, i) {
      if i < |b| { assert StepAt(b, es, i); }
    }
  }

  lemma {:induction false} StepIsReachable(p: Manager, e: Event)
    requires Reachable(p) && Enabled(p, e)
    ensures Reachable(Step(p, e))
  {
    var b, es :| Behavior(b, es) && b[|es|] == p;
    var longer, more := b + [Step(p, e)], es + [e];
    LongerBehavior(b, es, e);
    assert longer[|more|] == Step(p, e);
  }

  lemma {:induction false} ReachableIsInv(p: Manager)
    requires Reachable(p)
    ensures Inv(p)
  {
    var b, es :| Behavior(b, es) && b[|es|] == p;
    BehaviorKeepsInv(b, es, |es|);
  }

  /** The renders that hold a permit. */
  function Holders(m: Manager): set<RenderId> {
    set r | r in m.renders && r in m.permits.requests && m.permits.requests[r].status == Pool.Granted
  }

  /**
   A render gives its permit back exactly once, when it ends: a finished render has
   called its release function once if it ever got a permit, and never otherwise, and
   the pool counts exactly the renders that have a permit and have not finished.
   */
  lemma {:induction false} RendersReturnTheirPermits(b: seq<Manager>, es: seq<Event>, i: nat)
    requires Behavior(b, es) && i < |b|
    ensures b[i].permits.active == |Holders(b[i])|
    ensures forall r :: r in Holders(b[i]) ==> b[i].renders[r].phase != Finished
    ensures forall r :: r in b[i].renders && b[i].renders[r].phase == Finished ==>
      b[i].renders[r].releases == if r in b[i].permits.grants then 1 else 0
    ensures (forall r :: r in b[i].renders ==> b[i].renders[r].phase == Finished) ==> b[i].permits.active == 0
  {
    BehaviorKeepsInv(b, es, i);
    var m := b[i];
    assert Holders(m) == Pool.Out(m.permits);
    forall r | r in m.renders
      ensures m.renders[r].phase == Finished ==> m.renders[r].releases == if r in m.permits.grants then 1 else 0
      ensures m.renders[r].phase == Finished ==> r !in Holders(m)
    {
      assert RenderOk(m, r) && Pool.RequestOk(m.permits, r);
    }
    if forall r :: r in m.renders ==> m.renders[r].phase == Finished {
      assert Holders(m) == {};
    }
  }

  /**
   However renders interleave with launches and closes, the launch and close protocol keeps
   its invariant: the stored browser is of the current generation, at most one launch is
   under way, and nothing is open when a close resolves.
   */
  lemma {:induction false} CoreInvariant(b: seq<Manager>, es: seq<Event>, i: nat)
    requires Behavior(b, es) && i < |b|
    ensures Gen.Inv(b[i].core)
    ensures b[i].core.browser.Some? ==>
      && b[i].core.browser.value in b[i].core.launches
      && b[i].core.launches[b[i].core.browser.value].generation == b[i].core.generation
    ensures forall l, m :: Gen.Unsettled(b[i].core, l) && Gen.Unsettled(b[i].core, m) ==> l == m
    ensures 0 < i && es[i - 1] == Browser(Gen.CloseResolves) ==>
      forall l :: l in b[i].core.launches ==> !b[i].core.launches[l].open && b[i].core.launches[l].phase.Done?
  {
    BehaviorKeepsInv(b, es, i);
    forall l, m | Gen.Unsettled(b[i].core, l) && Gen.Unsettled(b[i].core, m) ensures l == m {
      assert Gen.LaunchOk(b[i].core, l) && Gen.LaunchOk(b[i].core, m);
    }
    if 0 < i && es[i - 1] == Browser(Gen.CloseResolves) {
      BehaviorKeepsInv(b, es, i - 1);
      assert StepAt(b, es, i);
      Gen.ResolvingLeavesNothingOpen(b[i - 1].core);
    }
  }
}
