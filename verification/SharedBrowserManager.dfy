/**
 The two classes of the browser fallback, with the fields of the source and one method
 for each piece of code that runs between two awaits. Every method is proved to make
 exactly the step that `PermitPool` or `SharedBrowser` describes.
 */
module BrowserFetch {
  import opened Wrappers
  import FifoQueue
  import Pool = PermitPool
  import Gen = BrowserGenerations
  import Spec = SharedBrowser

  class ContextPermitPool {
    const limit: nat
    const maxQueue: nat
    var active: int
    var queue: seq<Pool.RequestId>
    var requests: map<Pool.RequestId, Pool.Request>
    var next: Pool.RequestId
    var aborted: set<Pool.SignalId>
    ghost var grants: seq<Pool.RequestId>

    ghost function State(): Pool.Permits
      reads this
    {
      Pool.Permits(limit, maxQueue, active, queue, requests, next, aborted, grants)
    }

    /** The calls so far were a behavior of the permit machine. */
    ghost predicate Lawful()
      reads this
    {
      Pool.Reachable(State())
    }

    constructor (limit: nat, maxQueue: nat)
      ensures State() == Pool.Init(limit, maxQueue) && Lawful()
    {
      this.limit, this.maxQueue := limit, maxQueue;
      active, queue, requests, next, aborted, grants := 0, [], map[], 1, {}, [];
      Pool.InitIsReachable(limit, maxQueue);
    }

    method SettleRequest(r: Pool.RequestId, status: Pool.Status)
      requires r in requests
      modifies this
      ensures State() == Pool.SettleRequest(old(State()), r, status)
    {
      var request := requests[r];
      requests := requests[r := Pool.Request(request.signal, status, false, request.settlements + 1)];
    }

    method Acquire(signal: Option<Pool.SignalId>) returns (r: Pool.RequestId)
      modifies this
      ensures State() == Pool.Step(old(State()), Pool.Acquire(signal))
      ensures r == old(next)
    {
      r := next;
      requests := requests[r := Pool.Request(signal, Pool.Waiting, false, 0)];
      next := next + 1;
      if signal.Some? && signal.value in aborted {
        SettleRequest(r, Pool.Rejected(Pool.SignalAborted));
      } else if active < limit {
        active := active + 1;
        grants := grants + [r];
        SettleRequest(r, Pool.Granted);
      } else if |queue| >= maxQueue {
        SettleRequest(r, Pool.Rejected(Pool.QueueFull));
      } else {
        requests := requests[r := requests[r].(listening := signal.Some?)];
        queue := queue + [r];
      }
    }

    method OnSignalAborted(signal: Pool.SignalId)
      modifies this
      ensures State() == Pool.Step(old(State()), Pool.SignalAborts(signal))
    {
      aborted := aborted + {signal};
    }

    method OnAbort(r: Pool.RequestId)
      modifies this
      ensures State() == Pool.Step(old(State()), Pool.AbortListener(r))
    {
      if r !in requests || !requests[r].listening { return; }
      if requests[r].signal.None? || requests[r].signal.value !in aborted { return; }
      var index := FifoQueue.IndexOf(queue, r);
      if index.Some? { queue := queue[..index.value] + queue[index.value + 1..]; }
      SettleRequest(r, Pool.Rejected(Pool.SignalAborted));
    }

    method RejectQueued()
      requires forall i :: 0 <= i < |queue| ==> queue[i] in requests
      modifies this
      ensures State() == Pool.Step(old(State()), Pool.RejectQueued)
    {
      var waiters := queue;
      queue := [];
      ghost var spliced := State();
      for k := 0 to |waiters|
        invariant forall i :: 0 <= i < |waiters| ==> waiters[i] in requests
        invariant Pool.RejectEach(State(), waiters[k..]) == Pool.RejectEach(spliced, waiters)
      {
        SettleRequest(waiters[k], Pool.Rejected(Pool.PoolClosed));
        assert waiters[k..][1..] == waiters[k + 1..];
      }
    }

    method Dispatch()
      requires forall i :: 0 <= i < |queue| ==> queue[i] in requests
      modifies this
      ensures State() == Pool.Dispatch(old(State()))
    {
      while active < limit && |queue| > 0
        invariant forall i :: 0 <= i < |queue| ==> queue[i] in requests
        invariant Pool.Dispatch(State()) == Pool.Dispatch(old(State()))
        decreases |queue|
      {
        DispatchOnce();
      }
    }

    /** The waiter at the head gets a permit, or is passed over when its signal is aborted. */
    method DispatchOnce()
      requires queue != [] && queue[0] in requests
      modifies this
      ensures State() == Pool.DispatchOnce(old(State()))
    {
      var waiter := queue[0];
      queue := queue[1..];
      if requests[waiter].signal.Some? && requests[waiter].signal.value in aborted {
        SettleRequest(waiter, Pool.Rejected(Pool.SignalAborted));
        return;
      }
      active := active + 1;
      grants := grants + [waiter];
      SettleRequest(waiter, Pool.Granted);
    }

    /** The permit of request `r` is free again. */
    method GiveBack(r: Pool.RequestId)
      requires r in requests
      modifies this
      ensures State() == Pool.GiveBack(old(State()), r)
    {
      requests := requests[r := requests[r].(status := Pool.Released)];
      active := active - 1;
    }

    /** The release function of request `r`. */
    method Release(r: Pool.RequestId)
      requires forall i :: 0 <= i < |queue| ==> queue[i] in requests
      modifies this
      ensures State() == Pool.Step(old(State()), Pool.Release(r))
    {
      if r !in requests || requests[r].status != Pool.Granted { return; }
      GiveBack(r);
      Dispatch();
    }

    /** Whatever is called next, the pool stays on a behavior of the permit machine. */
    method Handle(e: Pool.Event)
      requires Lawful()
      modifies this
      ensures State() == Pool.Step(old(State()), e) && Lawful() && Pool.Inv(State())
    {
      Pool.ReachableIsInv(State());
      Pool.StepIsReachable(State(), e);
      Pool.ReachableIsInv(Pool.Step(State(), e));
      match e
      case Acquire(signal) => var _ := Acquire(signal);
      case SignalAborts(signal) => OnSignalAborted(signal);
      case AbortListener(r) => OnAbort(r);
      case Release(r) => Release(r);
      case RejectQueued => RejectQueued();
    }
  }

  class SharedBrowserManager {
    const permits: ContextPermitPool
    var generation: nat
    var browser: Option<Gen.LaunchId>
    var browserPromise: Option<Gen.LaunchId>
    var closePromise: Option<Gen.Closing>
    var launches: map<Gen.LaunchId, Gen.Launch>
    var nextLaunch: Gen.LaunchId
    var renders: map<Spec.RenderId, Spec.Render>

    ghost function Core(): Gen.Core
      reads this
    {
      Gen.Core(generation, browser, browserPromise, closePromise, launches, nextLaunch)
    }

    ghost function State(): Spec.Manager
      reads this, permits
    {
      Spec.Manager(permits.State(), Core(), renders)
    }

    /** The calls so far were a behavior of the machine of renders, launches and closes. */
    ghost predicate Lawful()
      reads this, permits
    {
      Spec.Reachable(State())
    }

    constructor (limit: nat, maxQueue: nat)
      ensures State() == Spec.Init(limit, maxQueue) && fresh(permits) && Lawful()
    {
      permits := new ContextPermitPool(limit, maxQueue);
      generation, browser, browserPromise, closePromise := 0, None, None, None;
      launches, nextLaunch, renders := map[], 0, map[];
      Spec.InitIsReachable(limit, maxQueue);
    }

    method Finish(r: Spec.RenderId)
      requires r in renders && Pool.Inv(permits.State())
      modifies this, permits
      ensures State() == Spec.Finish(old(State()), r)
    {
      renders := renders[r := Spec.Render(Spec.Finished, renders[r].releases + 1)];
      permits.Release(r);
    }

    /** `render` up to the await of `acquire`; `None` when the manager is closing. */
    method StartRender(signal: Option<Pool.SignalId>) returns (r: Option<Spec.RenderId>)
      modifies this, permits
      ensures State() == Spec.Step(old(State()), Spec.StartRender(signal))
      ensures r.Some? <==> old(closePromise).None?
    {
      if closePromise.Some? { return None; }
      var request := permits.Acquire(signal);
      renders := renders[request := Spec.Render(Spec.Acquiring, 0)];
      r := Some(request);
    }

    method GetBrowser(launchThrows: bool) returns (answer: Gen.Answer)
      requires Gen.Inv(Core())
      modifies this
      ensures Core() == Gen.Step(old(Core()), Gen.GetBrowser(launchThrows))
      ensures answer == Gen.AnswerOf(old(Core()), launchThrows)
      ensures renders == old(renders)
    {
      if closePromise.Some? { return Gen.Refused; }
      if browser.Some? && browser.value in launches && launches[browser.value].open { return Gen.Got(browser.value); }
      if browserPromise.Some? {
        assert Gen.LaunchOk(Core(), browserPromise.value);
        return Gen.WaitFor(browserPromise.value);
      }
      if launchThrows { return Gen.Refused; }
      answer := Gen.WaitFor(nextLaunch);
      launches := launches[nextLaunch := Gen.Launch(generation, Gen.Launching, false)];
      browserPromise := Some(nextLaunch);
      nextLaunch := nextLaunch + 1;
    }

    /** `render` from the answer to `acquire` to its next await. */
    method ResumeRender(r: Spec.RenderId, launchThrows: bool)
      requires Spec.Inv(State()) && Spec.Enabled(State(), Spec.ResumeRender(r, launchThrows))
      modifies this, permits
      ensures State() == Spec.Step(old(State()), Spec.ResumeRender(r, launchThrows))
    {
      var request := permits.requests[r];
      if request.status.Rejected? {
        renders := renders[r := renders[r].(phase := Spec.Finished)];
        return;
      }
      if request.signal.Some? && request.signal.value in permits.aborted {
        Finish(r);
        return;
      }
      var answer := GetBrowser(launchThrows);
      match answer
      case Got(l) => renders := renders[r := renders[r].(phase := Spec.Rendering(l))];
      case WaitFor(l) => renders := renders[r := renders[r].(phase := Spec.Launching(l))];
      case Refused => Finish(r);
    }

    method OnLaunchAnswered(r: Spec.RenderId)
      requires Spec.Inv(State()) && Spec.Enabled(State(), Spec.LaunchAnswered(r))
      modifies this, permits
      ensures State() == Spec.Step(old(State()), Spec.LaunchAnswered(r))
    {
      var l := renders[r].phase.launch;
      var signal := permits.requests[r].signal;
      if launches[l].phase.ok && !(signal.Some? && signal.value in permits.aborted) {
        renders := renders[r := renders[r].(phase := Spec.Rendering(l))];
      } else {
        Finish(r);
      }
    }

    method EndRender(r: Spec.RenderId)
      requires Spec.Inv(State()) && Spec.Enabled(State(), Spec.EndRender(r))
      modifies this, permits
      ensures State() == Spec.Step(old(State()), Spec.EndRender(r))
    {
      Finish(r);
    }

    method SetLaunch(l: Gen.LaunchId, phase: Gen.LaunchPhase, open: bool)
      requires l in launches
      modifies this
      ensures Core() == Gen.SetLaunch(old(Core()), l, phase, open) && renders == old(renders)
    {
      launches := launches[l := Gen.Launch(launches[l].generation, phase, open)];
    }

    /** The callback of a successful launch, up to its await. */
    method OnLaunched(l: Gen.LaunchId)
      requires Gen.Enabled(Core(), Gen.LaunchSucceeds(l))
      modifies this
      ensures State() == Spec.Step(old(State()), Spec.Browser(Gen.LaunchSucceeds(l)))
    {
      if launches[l].generation != generation {
        SetLaunch(l, Gen.Invalidating, true);
      } else {
        SetLaunch(l, Gen.Unwinding(true), true);
        browser := Some(l);
      }
    }

    method OnLaunchFailed(l: Gen.LaunchId)
      requires Gen.Enabled(Core(), Gen.LaunchFails(l))
      modifies this
      ensures State() == Spec.Step(old(State()), Spec.Browser(Gen.LaunchFails(l)))
    {
      SetLaunch(l, Gen.Unwinding(false), false);
    }

    method OnInvalidatedClosed(l: Gen.LaunchId)
      requires Gen.Enabled(Core(), Gen.InvalidatedClosed(l))
      modifies this
      ensures State() == Spec.Step(old(State()), Spec.Browser(Gen.InvalidatedClosed(l)))
    {
      SetLaunch(l, Gen.Unwinding(false), false);
    }

    /** The `finally` of the launch promise. */
    method OnLaunchSettled(l: Gen.LaunchId)
      requires Gen.Enabled(Core(), Gen.LaunchSettles(l))
      modifies this
      ensures State() == Spec.Step(old(State()), Spec.Browser(Gen.LaunchSettles(l)))
    {
      SetLaunch(l, Gen.Done(launches[l].phase.ok), launches[l].open);
      if browserPromise == Some(l) { browserPromise := None; }
    }

    method OnDisconnected(l: Gen.LaunchId)
      requires Gen.Enabled(Core(), Gen.DisconnectedEvent(l))
      modifies this
      ensures State() == Spec.Step(old(State()), Spec.Browser(Gen.DisconnectedEvent(l)))
    {
      if browser == Some(l) { browser := None; }
    }

    /** A new generation; the close takes over the browser and the launch of the old one. */
    method TakeOver()
      requires closePromise.None?
      modifies this
      ensures Core() == Gen.Step(old(Core()), Gen.Close) && renders == old(renders)
    {
      generation := generation + 1;
      var current, launching := browser, browserPromise;
      browser := None;
      browserPromise := None;
      closePromise := Some(Gen.Closing(current, launching, Gen.ClosingContexts));
    }

    /** `close` up to its first await. */
    method Close()
      requires Pool.Inv(permits.State())
      modifies this, permits
      ensures State() == Spec.Step(old(State()), Spec.Close)
    {
      if closePromise.Some? { return; }
      permits.RejectQueued();
      TakeOver();
    }

    method OnContextsClosed()
      requires Gen.Enabled(Core(), Gen.ContextsClosed)
      modifies this
      ensures State() == Spec.Step(old(State()), Spec.Browser(Gen.ContextsClosed))
    {
      closePromise := Some(closePromise.value.(phase := Gen.AwaitingLaunch));
    }

    /** `close` once the launch it captured has settled: it closes what there is. */
    method OnCloseSeesLaunch()
      requires Gen.Enabled(Core(), Gen.CloseSeesLaunch)
      modifies this
      ensures State() == Spec.Step(old(State()), Spec.Browser(Gen.CloseSeesLaunch))
    {
      var closing := closePromise.value;
      var browsers: set<Gen.LaunchId> := {};
      if closing.current.Some? { browsers := browsers + {closing.current.value}; }
      if closing.launch.Some? && launches[closing.launch.value].phase.ok {
        browsers := browsers + {closing.launch.value};
      }
      assert browsers == Gen.ToClose(Core(), closing);
      closePromise := Some(closing.(phase := Gen.ClosingBrowsers(browsers)));
    }

    method OnBrowserClosed(l: Gen.LaunchId)
      requires Gen.Enabled(Core(), Gen.BrowserClosed(l))
      modifies this
      ensures State() == Spec.Step(old(State()), Spec.Browser(Gen.BrowserClosed(l)))
    {
      SetLaunch(l, launches[l].phase, false);
      var left := closePromise.value.phase.left;
      closePromise := Some(closePromise.value.(phase := Gen.ClosingBrowsers(left - {l})));
    }

    /** The `finally` of the close promise. */
    method OnCloseResolved()
      requires Gen.Enabled(Core(), Gen.CloseResolves)
      modifies this
      ensures State() == Spec.Step(old(State()), Spec.Browser(Gen.CloseResolves))
    {
      closePromise := None;
    }

    /** The callbacks of the launch and close promises and of the browsers. */
    method HandleBrowser(event: Gen.Event)
      requires Spec.Enabled(State(), Spec.Browser(event))
      modifies this
      ensures State() == Spec.Step(old(State()), Spec.Browser(event))
    {
      match event
      case LaunchFails(l) => OnLaunchFailed(l);
      case LaunchSucceeds(l) => OnLaunched(l);
      case InvalidatedClosed(l) => OnInvalidatedClosed(l);
      case LaunchSettles(l) => OnLaunchSettled(l);
      case Disconnects(l) => SetLaunch(l, launches[l].phase, false);
      case DisconnectedEvent(l) => OnDisconnected(l);
      case ContextsClosed => OnContextsClosed();
      case CloseSeesLaunch => OnCloseSeesLaunch();
      case BrowserClosed(l) => OnBrowserClosed(l);
      case CloseResolves => OnCloseResolved();
    }

    /** Whatever comes next, the manager stays on a behavior of the machine. */
    method Handle(e: Spec.Event)
      requires Lawful() && Spec.Enabled(State(), e)
      modifies this, permits
      ensures State() == Spec.Step(old(State()), e) && Lawful() && Spec.Inv(State())
    {
      Spec.ReachableIsInv(State());
      Spec.StepIsReachable(State(), e);
      Spec.ReachableIsInv(Spec.Step(State(), e));
      match e
      case StartRender(signal) => var _ := StartRender(signal);
      case ResumeRender(r, launchThrows) => ResumeRender(r, launchThrows);
      case LaunchAnswered(r) => OnLaunchAnswered(r);
      case EndRender(r) => EndRender(r);
      case SignalAborts(signal) => permits.OnSignalAborted(signal);
      case AbortListener(r) => permits.OnAbort(r);
      case Close => Close();
      case Browser(event) => HandleBrowser(event);
    }
  }
}
