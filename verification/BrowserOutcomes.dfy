/**
 What becomes of a render and of the browser at each step, told by the phases of renders,
 launches and closes and by the status of permit requests. All of it holds in every
 reachable state.
 */
module BrowserOutcomes {
  import opened Wrappers
  import opened SharedBrowser
  import Pool = PermitPool
  import Gen = BrowserGenerations
  import Permit = PermitOutcomes

  predicate SignalFired(m: Manager, r: RenderId) {
    Permit.SignalFired(m.permits, r)
  }

  /** The render is over and its permit is given back, by one call of the release function. */
  ghost predicate EndedAfterPermit(m: Manager, r: RenderId) {
    && r in m.renders && m.renders[r] == Render(Finished, 1)
    && Permit.HasStatus(m.permits, r, Pool.Released)
  }

  /** The render is over and never had a permit. */
  ghost predicate EndedWithoutPermit(m: Manager, r: RenderId, reason: Pool.Reason) {
    && r in m.renders && m.renders[r] == Render(Finished, 0)
    && Permit.HasStatus(m.permits, r, Pool.Rejected(reason))
  }

  /** The render goes on in `phase` with its permit. */
  ghost predicate GoesOn(m: Manager, r: RenderId, phase: Phase) {
    && r in m.renders && m.renders[r] == Render(phase, 0)
    && Permit.HasStatus(m.permits, r, Pool.Granted)
  }

  ghost predicate OtherRendersStay(m: Manager, n: Manager, r: RenderId) {
    forall t :: t in m.renders && t != r ==> t in n.renders && n.renders[t] == m.renders[t]
  }

  /** Every launch but `l` is as it was. */
  ghost predicate OtherLaunchesStay(c: Gen.Core, d: Gen.Core, l: Gen.LaunchId) {
    forall t :: t in c.launches && t != l ==> t in d.launches && d.launches[t] == c.launches[t]
  }

  // ---------------------------------------------------------------------------
  // Renders
  // ---------------------------------------------------------------------------

  /**
   A render that starts during a close is refused. Any other asks for a permit: it has one
   at once if and only if its signal has not fired and a permit is free.
   */
  lemma {:induction false} StartOutcome(m: Manager, signal: Option<Pool.SignalId>)
    requires Reachable(m)
    ensures var n, r := Step(m, StartRender(signal)), m.permits.next;
      var fired := signal.Some? && signal.value in m.permits.aborted;
      && r !in m.renders && OtherRendersStay(m, n, r) && n.core == m.core
      && (m.core.closing.Some? ==> n == m)
      && (m.core.closing.None? ==>
            && r in n.renders && n.renders[r] == Render(Acquiring, 0)
            && (Permit.HasStatus(n.permits, r, Pool.Rejected(Pool.SignalAborted)) <==> fired)
            && (Permit.HasStatus(n.permits, r, Pool.Granted) <==> !fired && m.permits.active < m.permits.limit)
            && (Permit.HasStatus(n.permits, r, Pool.Rejected(Pool.QueueFull)) <==>
                  !fired && m.permits.active == m.permits.limit && |m.permits.queue| == m.permits.maxQueue)
            && (Permit.HasStatus(n.permits, r, Pool.Waiting) <==>
                  !fired && m.permits.active == m.permits.limit && |m.permits.queue| < m.permits.maxQueue))
  {
    ReachableIsInv(m);
    Pool.NextIsNew(m.permits);
  }

  lemma {:induction false} ReleaseFrees(p: Pool.Permits, r: RenderId)
    requires Pool.Sound(p) && Permit.HasStatus(p, r, Pool.Granted)
    ensures Permit.HasStatus(Pool.Step(p, Pool.Release(r)), r, Pool.Released)
  {
    Pool.GiveBackKeepsSound(p, r);
    Pool.DispatchKeepsSound(Pool.GiveBack(p, r));
  }

  /** What `Finish` does to a render that holds a permit. */
  lemma {:induction false} FinishOutcome(m: Manager, r: RenderId)
    requires Inv(m) && r in m.renders && GoesOn(m, r, m.renders[r].phase)
    ensures var n := Finish(m, r); EndedAfterPermit(n, r) && OtherRendersStay(m, n, r) && n.core == m.core
  {
    ReleaseFrees(m.permits, r);
  }

  /** Which browser a render with a permit finds, and the launch it starts when it finds none. */
  ghost predicate FindsBrowser(m: Manager, n: Manager, r: RenderId, launchThrows: bool) {
    var c, d := m.core, n.core;
    var stored := c.browser.Some? && Gen.IsConnected(c, c.browser.value);
    && (c.closing.Some? ==> EndedAfterPermit(n, r) && d == c)
    && (c.closing.None? && stored ==> GoesOn(n, r, Rendering(c.browser.value)) && d == c)
    && (c.closing.None? && !stored && c.pending.Some? ==> GoesOn(n, r, Launching(c.pending.value)) && d == c)
    && (c.closing.None? && !stored && c.pending.None? && launchThrows ==> EndedAfterPermit(n, r) && d == c)
    && (c.closing.None? && !stored && c.pending.None? && !launchThrows ==>
          && c.nextLaunch !in c.launches && GoesOn(n, r, Launching(c.nextLaunch))
          && d == c.(launches := c.launches[c.nextLaunch := Gen.Launch(c.generation, Gen.Launching, false)],
                     pending := Some(c.nextLaunch), nextLaunch := c.nextLaunch + 1))
  }

  lemma {:induction false} ResumeFinds(m: Manager, r: RenderId, launchThrows: bool)
    requires Inv(m) && Enabled(m, ResumeRender(r, launchThrows))
    requires GoesOn(m, r, Acquiring) && !SignalFired(m, r)
    ensures var n := Step(m, ResumeRender(r, launchThrows)); OtherRendersStay(m, n, r) && FindsBrowser(m, n, r, launchThrows)
  {
    var c := m.core;
    if c.pending.Some? { assert Gen.LaunchOk(c, c.pending.value); }
    forall l | l in c.launches ensures l != c.nextLaunch { assert Gen.LaunchOk(c, l); }
    if Gen.AnswerOf(c, launchThrows).Refused? {
      FinishOutcome(m, r);
    }
  }

  /**
   A render whose permit request was rejected ends with that reason, one whose signal has
   fired ends and gives its permit back. Every other one is given the stored browser when
   that is connected, waits for the launch under way when there is one and starts a launch
   of the current generation otherwise; only a close and a launch that throws end it.
   */
  lemma {:induction false} ResumeOutcome(m: Manager, r: RenderId, launchThrows: bool)
    requires Reachable(m) && Enabled(m, ResumeRender(r, launchThrows))
    ensures var n, status := Step(m, ResumeRender(r, launchThrows)), m.permits.requests[r].status;
      && OtherRendersStay(m, n, r)
      && (status.Rejected? ==> EndedWithoutPermit(n, r, status.reason) && n.core == m.core)
      && (!status.Rejected? && SignalFired(m, r) ==> EndedAfterPermit(n, r) && n.core == m.core)
      && (!status.Rejected? && !SignalFired(m, r) ==> FindsBrowser(m, n, r, launchThrows))
  {
    ReachableIsInv(m);
    assert RenderOk(m, r);
    if !m.permits.requests[r].status.Rejected? {
      if SignalFired(m, r) {
        FinishOutcome(m, r);
      } else {
        ResumeFinds(m, r, launchThrows);
      }
    }
  }

  /**
   A render whose launch has succeeded and whose signal has not fired goes on to render with
   that browser; one whose launch has failed or whose signal has fired ends and gives its
   permit back.
   */
  lemma {:induction false} AnsweredOutcome(m: Manager, r: RenderId, l: Gen.LaunchId)
    requires Reachable(m) && Enabled(m, LaunchAnswered(r)) && InPhase(m, r, Launching(l))
    ensures var n := Step(m, LaunchAnswered(r));
      && l in m.core.launches && m.core.launches[l].phase.Done? && OtherRendersStay(m, n, r) && n.core == m.core
      && (m.core.launches[l].phase.ok && !SignalFired(m, r) ==> GoesOn(n, r, Rendering(l)) && n.permits == m.permits)
      && (!m.core.launches[l].phase.ok || SignalFired(m, r) ==> EndedAfterPermit(n, r))
  {
    ReachableIsInv(m);
    assert RenderOk(m, r);
    if !m.core.launches[l].phase.ok || SignalFired(m, r) {
      FinishOutcome(m, r);
    }
  }

  /** The end of a render gives its permit back. */
  lemma {:induction false} EndOutcome(m: Manager, r: RenderId)
    requires Reachable(m) && Enabled(m, EndRender(r))
    ensures var n := Step(m, EndRender(r)); EndedAfterPermit(n, r) && OtherRendersStay(m, n, r) && n.core == m.core
  {
    ReachableIsInv(m);
    assert RenderOk(m, r);
    FinishOutcome(m, r);
  }

  // ---------------------------------------------------------------------------
  // Launches
  // ---------------------------------------------------------------------------

  /**
   A launch that succeeds in the generation it was started in gives the stored browser. One
   that was overtaken by a close is not stored; it closes its own browser and then fails.
   */
  lemma {:induction false} LaunchSucceedsOutcome(m: Manager, l: Gen.LaunchId)
    requires Reachable(m) && Gen.InPhase(m.core, l, Gen.Launching)
    ensures var c, n := m.core, Step(m, Browser(Gen.LaunchSucceeds(l))); var d := n.core;
      && d.pending == c.pending && d.closing == c.closing && d.generation == c.generation
      && OtherLaunchesStay(c, d, l) && Gen.IsConnected(d, l)
      && n.renders == m.renders && n.permits == m.permits
      && (c.launches[l].generation == c.generation ==>
            d.browser == Some(l) && Gen.InPhase(d, l, Gen.Unwinding(true)))
      && (c.launches[l].generation < c.generation ==>
            d.browser == c.browser && Gen.InPhase(d, l, Gen.Invalidating))
  {
    ReachableIsInv(m);
    assert Gen.LaunchOk(m.core, l);
  }

  /** A launch whose own browser is closed again, and one that fails, leave no browser behind. */
  lemma {:induction false} LaunchFailsOutcome(m: Manager, l: Gen.LaunchId, e: Gen.Event)
    requires Reachable(m) && e in {Gen.LaunchFails(l), Gen.InvalidatedClosed(l)} && Gen.Enabled(m.core, e)
    ensures var c, n := m.core, Step(m, Browser(e)); var d := n.core;
      && d.browser == c.browser && d.pending == c.pending && d.closing == c.closing && d.generation == c.generation
      && OtherLaunchesStay(c, d, l) && !Gen.IsConnected(d, l) && Gen.InPhase(d, l, Gen.Unwinding(false))
      && n.renders == m.renders && n.permits == m.permits && d.browser != Some(l)
  {
    ReachableIsInv(m);
    assert Gen.LaunchOk(m.core, l);
  }

  /** A launch that has settled is forgotten as the pending one, and its answer is whether it succeeded. */
  lemma {:induction false} LaunchSettlesOutcome(m: Manager, l: Gen.LaunchId, ok: bool)
    requires Reachable(m) && Gen.InPhase(m.core, l, Gen.Unwinding(ok))
    ensures var c, n := m.core, Step(m, Browser(Gen.LaunchSettles(l))); var d := n.core;
      && Gen.InPhase(d, l, Gen.Done(ok)) && OtherLaunchesStay(c, d, l) && d.launches[l].open == c.launches[l].open
      && d.browser == c.browser && d.closing == c.closing && d.generation == c.generation
      && d.pending == None && n.renders == m.renders && n.permits == m.permits
  {
    ReachableIsInv(m);
    assert Gen.LaunchOk(m.core, l);
    if m.core.pending.Some? { assert Gen.LaunchOk(m.core, m.core.pending.value); }
  }

  /** A browser that disconnects stays stored until its event arrives, which forgets it and no other. */
  lemma {:induction false} DisconnectedOutcome(m: Manager, l: Gen.LaunchId)
    requires Reachable(m) && Gen.Enabled(m.core, Gen.DisconnectedEvent(l))
    ensures var c, n := m.core, Step(m, Browser(Gen.DisconnectedEvent(l))); var d := n.core;
      && d.browser == (if c.browser == Some(l) then None else c.browser)
      && d.launches == c.launches && d.pending == c.pending && d.closing == c.closing && d.generation == c.generation
      && n.renders == m.renders && n.permits == m.permits
  {
  }

  // ---------------------------------------------------------------------------
  // Closes
  // ---------------------------------------------------------------------------

  /**
   A close rejects the waiting renders because the pool closes, raises the generation and
   takes over the stored browser and the launch under way. During a close another one does
   nothing.
   */
  lemma {:induction false} CloseOutcome(m: Manager)
    requires Reachable(m)
    ensures var c, n := m.core, Step(m, Close); var d := n.core;
      && n.renders == m.renders
      && (c.closing.Some? ==> n == m)
      && (c.closing.None? ==>
            && d.generation == c.generation + 1 && d.browser.None? && d.pending.None? && d.launches == c.launches
            && d.closing.Some? && d.closing.value == Gen.Closing(c.browser, c.pending, Gen.ClosingContexts)
            && n.permits.queue == [] && n.permits.active == m.permits.active
            && (forall r :: Permit.HasStatus(m.permits, r, Pool.Waiting) ==>
                  Permit.HasStatus(n.permits, r, Pool.Rejected(Pool.PoolClosed)))
            && (forall r :: r in m.permits.requests && !Permit.HasStatus(m.permits, r, Pool.Waiting) ==>
                  r in n.permits.requests && n.permits.requests[r] == m.permits.requests[r]))
  {
    ReachableIsInv(m);
    if m.core.closing.None? {
      Permit.RejectingTheQueue(m.permits);
    }
  }
  /**
   The rest of a close: it waits for the contexts and for the launch it took over, closes the
   browser it took over and the one that launch gave, if it gave one, and is over when all
   of these are closed.
   */
  lemma {:induction false} CloseStepOutcome(m: Manager, e: Gen.Event)
    requires Reachable(m) && e in {Gen.ContextsClosed, Gen.CloseSeesLaunch, Gen.CloseResolves} && Gen.Enabled(m.core, e)
    ensures var c, n := m.core, Step(m, Browser(e)); var d := n.core;
      && n.renders == m.renders && n.permits == m.permits && d.launches == c.launches
      && d.generation == c.generation && d.browser.None? && d.pending.None? && c.closing.Some?
      && (e.CloseResolves? <==> d.closing.None?)
      && (d.closing.Some? ==>
            && d.closing.value.current == c.closing.value.current && d.closing.value.launch == c.closing.value.launch)
      && (e.ContextsClosed? ==> d.closing.value.phase == Gen.AwaitingLaunch)
      && (e.CloseSeesLaunch? ==>
            && d.closing.value.phase.ClosingBrowsers?
            && forall l :: l in d.closing.value.phase.left <==>
                 || c.closing.value.current == Some(l)
                 || (c.closing.value.launch == Some(l) && c.launches[l].phase == Gen.Done(true)))
  {
    ReachableIsInv(m);
  }

  lemma {:induction false} BrowserClosedOutcome(m: Manager, l: Gen.LaunchId)
    requires Reachable(m) && Gen.Enabled(m.core, Gen.BrowserClosed(l))
    ensures var c, n := m.core, Step(m, Browser(Gen.BrowserClosed(l))); var d := n.core;
      && n.renders == m.renders && n.permits == m.permits && OtherLaunchesStay(c, d, l)
      && d.generation == c.generation && d.browser.None? && d.pending.None?
      && l in d.launches && d.launches[l] == c.launches[l].(open := false)
      && d.closing == Some(c.closing.value.(phase := Gen.ClosingBrowsers(c.closing.value.phase.left - {l})))
  {
    ReachableIsInv(m);
  }

  // ---------------------------------------------------------------------------
  // Signals
  // ---------------------------------------------------------------------------

  /** A signal that fires changes no request by itself; its listeners do. */
  lemma {:induction false} SignalOutcome(m: Manager, fired: Pool.SignalId)
    ensures var n := Step(m, SignalAborts(fired));
      && n.renders == m.renders && n.core == m.core && n.permits.requests == m.permits.requests
      && n.permits.queue == m.permits.queue && n.permits.active == m.permits.active
      && forall r :: r in m.permits.requests ==>
           (SignalFired(n, r) <==> SignalFired(m, r) || m.permits.requests[r].signal == Some(fired))
  {
  }

  /** The listener of a waiting render rejects its request for the signal and takes it out of the queue. */
  lemma {:induction false} AbortOutcome(m: Manager, r: RenderId) returns (k: nat)
    requires Reachable(m) && Permit.HasStatus(m.permits, r, Pool.Waiting) && SignalFired(m, r)
    ensures k < |m.permits.queue| && m.permits.queue[k] == r
    ensures var n := Step(m, AbortListener(r));
      && n.renders == m.renders && n.core == m.core && Permit.OnlyThese(m.permits, n.permits, {r})
      && Permit.HasStatus(n.permits, r, Pool.Rejected(Pool.SignalAborted))
      && n.permits.queue == m.permits.queue[..k] + m.permits.queue[k + 1..] && n.permits.active == m.permits.active
  {
    ReachableIsInv(m);
    k := Permit.AbortedWaiter(m.permits, r);
  }
}
