/**
 The launch and close protocol of `SharedBrowserManager`: one stored browser, one
 pending launch promise, a generation counter raised by `close`, and the close itself,
 cut at every await.

 A browser is known by the number of the launch that produced it. It counts as open
 from the moment its launch succeeds until it disconnects or a call of its `close`
 has settled.
 */
module BrowserGenerations {
  import opened Wrappers

  type LaunchId = nat

  /**
   `Unwinding`: the callback of the launch has run, its `finally` has not.
   `Invalidating`: the launch came too late and is closing its own browser.
   */
  datatype LaunchPhase = Launching | Invalidating | Unwinding(ok: bool) | Done(ok: bool)

  datatype Launch = Launch(generation: nat, phase: LaunchPhase, open: bool)

  datatype ClosePhase = ClosingContexts | AwaitingLaunch | ClosingBrowsers(left: set<LaunchId>)

  /** What `close` captured when it was called, and how far it has come. */
  datatype Closing = Closing(current: Option<LaunchId>, launch: Option<LaunchId>, phase: ClosePhase)

  datatype Core = Core(
    generation: nat,
    browser: Option<LaunchId>,
    pending: Option<LaunchId>,
    closing: Option<Closing>,
    launches: map<LaunchId, Launch>,
    nextLaunch: LaunchId)

  datatype Event =
    | GetBrowser(launchThrows: bool)
    | LaunchFails(launch: LaunchId)
    | LaunchSucceeds(launch: LaunchId)
    | InvalidatedClosed(launch: LaunchId)
    | LaunchSettles(launch: LaunchId)
    | Disconnects(launch: LaunchId)
    | DisconnectedEvent(launch: LaunchId)
    | Close
    | ContextsClosed
    | CloseSeesLaunch
    | BrowserClosed(launch: LaunchId)
    | CloseResolves

  /** What a caller of `getBrowser` is given: a browser, a launch to wait for, or an error. */
  datatype Answer = Got(browser: LaunchId) | WaitFor(launch: LaunchId) | Refused

  const Init := Core(0, None, None, None, map[], 0)

  predicate IsConnected(c: Core, l: LaunchId) {
    l in c.launches && c.launches[l].open
  }

  function AnswerOf(c: Core, launchThrows: bool): Answer {
    if c.closing.Some? then Refused
    else if c.browser.Some? && IsConnected(c, c.browser.value) then Got(c.browser.value)
    else if c.pending.Some? then WaitFor(c.pending.value)
    else if launchThrows then Refused
    else WaitFor(c.nextLaunch)
  }

  predicate InPhase(c: Core, l: LaunchId, phase: LaunchPhase) {
    l in c.launches && c.launches[l].phase == phase
  }

  function SetLaunch(c: Core, l: LaunchId, phase: LaunchPhase, open: bool): Core
    requires l in c.launches
  {
    c.(launches := c.launches[l := Launch(c.launches[l].generation, phase, open)])
  }

  function DoGetBrowser(c: Core, launchThrows: bool): Core {
    if AnswerOf(c, launchThrows) == WaitFor(c.nextLaunch) && c.pending != Some(c.nextLaunch) then
      c.(launches := c.launches[c.nextLaunch := Launch(c.generation, Launching, false)],
         pending := Some(c.nextLaunch),
         nextLaunch := c.nextLaunch + 1)
    else c
  }

  function DoLaunchSucceeds(c: Core, l: LaunchId): Core
    requires l in c.launches
  {
    if c.launches[l].generation != c.generation then SetLaunch(c, l, Invalidating, true)
    else SetLaunch(c, l, Unwinding(true), true).(browser := Some(l))
  }

  function DoLaunchSettles(c: Core, l: LaunchId): Core
    requires l in c.launches && c.launches[l].phase.Unwinding?
  {
    SetLaunch(c, l, Done(c.launches[l].phase.ok), c.launches[l].open)
      .(pending := if c.pending == Some(l) then None else c.pending)
  }

  function DoClose(c: Core): Core {
    if c.closing.Some? then c
    else
      c.(generation := c.generation + 1, browser := None, pending := None,
         closing := Some(Closing(c.browser, c.pending, ClosingContexts)))
  }

  function AsSet(l: Option<LaunchId>): set<LaunchId> {
    match l case Some(x) => {x} case None => {}
  }

  /** The browsers `close` closes: the one that was stored and the one it waited for. */
  function ToClose(c: Core, closing: Closing): set<LaunchId> {
    AsSet(closing.current) +
    (if closing.launch.Some? && InPhase(c, closing.launch.value, Done(true)) then {closing.launch.value} else {})
  }

  predicate LaunchIsSettled(c: Core, launch: Option<LaunchId>) {
    launch.None? || (launch.value in c.launches && c.launches[launch.value].phase.Done?)
  }

  function SetPhase(c: Core, phase: ClosePhase): Core
    requires c.closing.Some?
  {
    c.(closing := Some(c.closing.value.(phase := phase)))
  }

  predicate Enabled(c: Core, e: Event) {
    match e
    case GetBrowser(_) => true
    case LaunchFails(l) => InPhase(c, l, Launching)
    case LaunchSucceeds(l) => InPhase(c, l, Launching)
    case InvalidatedClosed(l) => InPhase(c, l, Invalidating)
    case LaunchSettles(l) => l in c.launches && c.launches[l].phase.Unwinding?
    case Disconnects(l) => IsConnected(c, l)
    case DisconnectedEvent(l) => l in c.launches && !c.launches[l].open
    case Close => true
    case ContextsClosed => c.closing.Some? && c.closing.value.phase == ClosingContexts
    case CloseSeesLaunch =>
      c.closing.Some? && c.closing.value.phase == AwaitingLaunch && LaunchIsSettled(c, c.closing.value.launch)
    case BrowserClosed(l) =>
      && c.closing.Some? && c.closing.value.phase.ClosingBrowsers?
      && l in c.closing.value.phase.left && l in c.launches
    case CloseResolves => c.closing.Some? && c.closing.value.phase == ClosingBrowsers({})
  }

  function Step(c: Core, e: Event): Core
    requires Enabled(c, e)
  {
    match e
    case GetBrowser(launchThrows) => DoGetBrowser(c, launchThrows)
    case LaunchFails(l) => SetLaunch(c, l, Unwinding(false), false)
    case LaunchSucceeds(l) => DoLaunchSucceeds(c, l)
    case InvalidatedClosed(l) => SetLaunch(c, l, Unwinding(false), false)
    case LaunchSettles(l) => DoLaunchSettles(c, l)
    case Disconnects(l) => SetLaunch(c, l, c.launches[l].phase, false)
    case DisconnectedEvent(l) => if c.browser == Some(l) then c.(browser := None) else c
    case Close => DoClose(c)
    case ContextsClosed => SetPhase(c, AwaitingLaunch)
    case CloseSeesLaunch => SetPhase(c, ClosingBrowsers(ToClose(c, c.closing.value)))
    case BrowserClosed(l) =>
      SetPhase(SetLaunch(c, l, c.launches[l].phase, false), ClosingBrowsers(c.closing.value.phase.left - {l}))
    case CloseResolves => c.(closing := None)
  }

  // ---------------------------------------------------------------------------
  // The invariant
  // ---------------------------------------------------------------------------

  predicate Unsettled(c: Core, l: LaunchId) {
    l in c.launches && !c.launches[l].phase.Done?
  }

  ghost predicate LaunchOk(c: Core, l: LaunchId)
    requires l in c.launches
  {
    var launch := c.launches[l];
    && l < c.nextLaunch
    && launch.generation <= c.generation
    && (launch.open ==> launch.phase in {Invalidating, Unwinding(true), Done(true)})
    && (launch.phase == Invalidating ==> launch.generation < c.generation)
    && match c.closing
       case None =>
         && (Unsettled(c, l) ==> c.pending == Some(l))
         && (launch.open ==> c.browser == Some(l))
       case Some(closing) =>
         && launch.generation < c.generation
         && (Unsettled(c, l) ==> closing.launch == Some(l) && !closing.phase.ClosingBrowsers?)
         && (launch.open ==>
               match closing.phase
               case ClosingBrowsers(left) => l in left
               case _ => closing.current == Some(l) || closing.launch == Some(l))
  }

  ghost predicate Inv(c: Core) {
    && (forall l :: l in c.launches ==> LaunchOk(c, l))
    && (c.browser.Some? ==>
          var l := c.browser.value;
          && l in c.launches && c.launches[l].generation == c.generation
          && (c.launches[l].phase == Unwinding(true) || c.launches[l].phase == Done(true)))
    && (c.pending.Some? ==>
          var l := c.pending.value;
          && Unsettled(c, l) && c.launches[l].generation == c.generation
          && (c.launches[l].phase == Launching && c.browser.Some? ==> !IsConnected(c, c.browser.value)))
    && match c.closing
       case None => true
       case Some(closing) =>
         && c.browser.None? && c.pending.None?
         && AsSet(closing.current) + AsSet(closing.launch) <= c.launches.Keys
         && (closing.phase.ClosingBrowsers? ==> closing.phase.left <= c.launches.Keys)
  }

  predicate IsCloseEvent(e: Event) {
    e.Close? || e.ContextsClosed? || e.CloseSeesLaunch? || e.BrowserClosed? || e.CloseResolves?
  }

  lemma {:induction false} LaunchStepKeepsInv(c: Core, e: Event)
    requires Inv(c) && Enabled(c, e) && !IsCloseEvent(e)
    ensures Inv(Step(c, e))
  {
    var d := Step(c, e);
    forall l | l in d.launches ensures LaunchOk(d, l) {
      if l in c.launches { assert LaunchOk(c, l); }
    }
    if c.browser.Some? { assert LaunchOk(c, c.browser.value); }
    if c.pending.Some? { assert LaunchOk(c, c.pending.value); }
  }

  lemma {:induction false} CloseStepKeepsInv(c: Core, e: Event)
    requires Inv(c) && Enabled(c, e) && IsCloseEvent(e)
    ensures Inv(Step(c, e))
  {
    var d := Step(c, e);
    forall l | l in d.launches ensures LaunchOk(d, l) {
      assert LaunchOk(c, l);
    }
  }

  lemma {:induction false} StepKeepsInv(c: Core, e: Event)
    requires Inv(c) && Enabled(c, e)
    ensures Inv(Step(c, e))
  {
    if IsCloseEvent(e) {
      CloseStepKeepsInv(c, e);
    } else {
      LaunchStepKeepsInv(c, e);
    }
  }

  // ---------------------------------------------------------------------------
  // Every interleaving
  // ---------------------------------------------------------------------------

  ghost predicate StepAt(b: seq<Core>, es: seq<Event>, i: nat)
    requires 0 < i < |b| == |es| + 1
  {
    Enabled(b[i - 1], es[i - 1]) && b[i] == Step(b[i - 1], es[i - 1])
  }

  ghost predicate Behavior(b: seq<Core>, es: seq<Event>) {
    && |b| == |es| + 1
    && b[0] == Init
    && (forall i :: 0 < i < |b| ==> StepAt(b, es, i))
  }

  lemma {:induction false} BehaviorKeepsInv(b: seq<Core>, es: seq<Event>, i: nat)
    requires Behavior(b, es) && i < |b|
    ensures Inv(b[i])
  {
    if i > 0 {
      BehaviorKeepsInv(b, es, i - 1);
      assert StepAt(b, es, i);
      StepKeepsInv(b[i - 1], es[i - 1]);
    }
  }

  /** The stored browser was launched in the current generation. */
  lemma {:induction false} StoredBrowserIsCurrent(b: seq<Core>, es: seq<Event>, i: nat)
    requires Behavior(b, es) && i < |b| && b[i].browser.Some?
    ensures b[i].browser.value in b[i].launches
    ensures b[i].launches[b[i].browser.value].generation == b[i].generation
    ensures b[i].closing.None?
  {
    BehaviorKeepsInv(b, es, i);
  }

  /**
   At most one launch is under way at any time: while the manager is open it is the one
   whose promise is stored and belongs to the current generation, during a close it is
   the one the close waits for.
   */
  lemma {:induction false} OneLaunchAtATime(b: seq<Core>, es: seq<Event>, i: nat, l: LaunchId, m: LaunchId)
    requires Behavior(b, es) && i < |b| && Unsettled(b[i], l) && Unsettled(b[i], m)
    ensures l == m
    ensures match b[i].closing
      case None => b[i].pending == Some(l) && b[i].launches[l].generation == b[i].generation
      case Some(closing) => closing.launch == Some(l) && b[i].launches[l].generation < b[i].generation
  {
    BehaviorKeepsInv(b, es, i);
    assert LaunchOk(b[i], l) && LaunchOk(b[i], m);
  }

  lemma {:induction false} ResolvingLeavesNothingOpen(c: Core)
    requires Inv(c) && Enabled(c, CloseResolves)
    ensures forall l :: l in c.launches ==> !c.launches[l].open && c.launches[l].phase.Done?
  {
    forall l | l in c.launches ensures !c.launches[l].open && c.launches[l].phase.Done? {
      assert LaunchOk(c, l);
    }
  }

  /**
   When a close resolves, no browser is open, whenever it was launched and even if its
   launch succeeded while the close was going on.
   */
  lemma {:induction false} CloseLeavesNothingOpen(b: seq<Core>, es: seq<Event>, i: nat)
    requires Behavior(b, es) && 0 < i < |b| && es[i - 1] == CloseResolves
    ensures forall l :: l in b[i].launches ==> !b[i].launches[l].open && b[i].launches[l].phase.Done?
    ensures b[i].closing.None? && b[i].browser.None? && b[i].pending.None?
  {
    BehaviorKeepsInv(b, es, i - 1);
    assert StepAt(b, es, i);
    ResolvingLeavesNothingOpen(b[i - 1]);
  }

  /** Outside a close the only open browser is the stored one. */
  lemma {:induction false} OneBrowserAtATime(b: seq<Core>, es: seq<Event>, i: nat, l: LaunchId)
    requires Behavior(b, es) && i < |b| && b[i].closing.None? && IsConnected(b[i], l)
    ensures b[i].browser == Some(l)
  {
    BehaviorKeepsInv(b, es, i);
    assert LaunchOk(b[i], l);
  }
}
