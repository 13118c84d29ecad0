/** The three machines wired together: what the theorems about runs say holds of these objects. */
module HandshakeRuns {
  import opened Basics
  import opened Handshake
  import opened HandshakeMachines
  import opened HandshakeSafety
  import opened HandshakeTermination
  import opened HandshakeOutcomes

  /** The offered events that are possible when their turn comes. */
  function Taken(s: System, offered: seq<Event>): seq<Event>
    decreases offered
  {
    if offered == [] then []
    else if Possible(s, offered[0]) then [offered[0]] + Taken(Step(s, offered[0]), offered[1..])
    else Taken(s, offered[1..])
  }

  lemma RunGrows(token: Token, states: seq<System>, events: seq<Event>, e: Event)
    requires IsRun(token, states, events) && Possible(states[|events|], e)
    ensures IsRun(token, states + [Step(states[|events|], e)], events + [e])
  {
    hide Possible, Step;
  }

  lemma RunLength(token: Token, states: seq<System>, events: seq<Event>)
    requires IsRun(token, states, events)
    ensures |states| == |events| + 1
  {
  }

  lemma TakenNext(s: System, offered: seq<Event>, i: nat)
    requires i < |offered|
    ensures Taken(s, offered[i..]) ==
      if Possible(s, offered[i])
      then [offered[i]] + Taken(Step(s, offered[i]), offered[i + 1..]) else Taken(s, offered[i + 1..])
  {
    hide Possible, Step;
    assert offered[i..][0] == offered[i] && offered[i..][1..] == offered[i + 1..];
  }

  lemma DisposalIsAskedFor(s: System)
    ensures var p := Step(s, CallDispose).page; p.terminal || p.disposeRequested
  {
  }

  lemma RequestStaysForCalls(p: Page)
    requires p.disposeRequested
    ensures PageInitialize(p).disposeRequested && PageDispose(p).disposeRequested
    ensures PageOnUtilityBoundary(p).disposeRequested && FailImmediately(p).disposeRequested
  {
    if !p.terminal {
      WhatBeginningToFailDoes(p);
      WhatFailingDoes(p);
    }
    hide BeginFailureDisposal;
  }

  lemma RequestStaysForUtility(p: Page, message: FromUtility)
    requires p.disposeRequested
    ensures PageOnUtility(p, message).disposeRequested
  {
    if !p.terminal {
      WhatBeginningToFailDoes(p);
      WhatFailingDoes(p);
    }
    hide BeginFailureDisposal, FailImmediately;
  }

  lemma RequestStaysForLifecycle(p: Page, message: FromLifecycle)
    requires p.disposeRequested
    ensures PageOnLifecycle(p, message).disposeRequested
  {
    if !p.terminal {
      WhatBeginningToFailDoes(p);
      WhatFailingDoes(p);
    }
    hide BeginFailureDisposal, FailImmediately;
  }

  /** A request for disposal is never taken back. */
  lemma RequestStays(s: System, e: Event)
    requires Possible(s, e) && s.page.disposeRequested
    ensures Step(s, e).page.disposeRequested
  {
    hide Step, PageOnUtility, PageOnLifecycle, PageOnUtilityBoundary, FailImmediately, PageInitialize, PageDispose;
    PageAfterStep(s, e);
    RequestStaysForCalls(s.page);
    if e.DeliverFromUtility? { RequestStaysForUtility(s.page, s.utility.toPage[0]); }
    if e.DeliverFromLifecycle? { RequestStaysForLifecycle(s.page, s.lifecycle.toPage[0]); }
  }

  lemma CallsArePossible(s: System)
    ensures Possible(s, CallDispose)
  {
  }

  lemma GuaranteedIsInternal(e: Event)
    requires Guaranteed(e)
    ensures !External(e)
  {
  }

  class RuntimeSystem {
    const page: RuntimeHandshake
    const utility: UtilityMachine
    const lifecycle: LifecycleMachine
    /** Everything that has happened so far. */
    ghost var states: seq<System>
    ghost var events: seq<Event>

    ghost function State(): System
      reads page, utility, lifecycle
    {
      System(page.State(), utility.State(), lifecycle.State())
    }

    /** The machines are where a run of the model has led. */
    ghost predicate Valid()
      reads this, page, utility, lifecycle
    {
      IsRun(page.nextToken, states, events) && states[|events|] == State()
    }

    constructor (token: Token)
      ensures Valid() && page.nextToken == token && events == [] && State() == Start(token)
      ensures fresh(page) && fresh(utility) && fresh(lifecycle)
    {
      page := new RuntimeHandshake(token);
      utility := new UtilityMachine();
      lifecycle := new LifecycleMachine();
      events, states := [], [Start(token)];
    }

    method CanHappen(e: Event) returns (possible: bool)
      ensures possible == Possible(State(), e)
    {
      match e
      case DeliverToUtility => return page.toUtility != [];
      case DeliverToLifecycle(_) => return page.toLifecycle != [];
      case DeliverFromUtility => return utility.toPage != [];
      case DeliverFromLifecycle => return lifecycle.toPage != [];
      case Prepared(_) => return utility.phase.Preparing?;
      case GuestSettled(_) => return utility.phase.StartingGuest?;
      case LocalDestroySettled => return utility.phase.DestroyingLocally?;
      case DestroySettled(_) => return lifecycle.outcome.InFlight?;
      case _ => return true;
    }

    /** Moves the first message of a queue to whom it is for, or lets something settle or be called. */
    method Move(e: Event)
      requires Possible(State(), e)
      modifies page, utility, lifecycle
      ensures State() == Step(old(State()), e)
    {
      hide PageOnUtility, PageOnLifecycle, PageOnUtilityBoundary, FailImmediately, PageInitialize, PageDispose;
      hide UtilityOn, UtilityPrepared, UtilityGuestSettled, UtilityDestroySettled, LifecycleOn, LifecycleDestroySettled;
      match e
      case CallInitialize => var _ := page.Begin();
      case CallDispose => page.Dispose();
      case UtilityBoundary => page.OnUtilityBoundary();
      case LifecycleBoundary => page.OnLifecycleBoundary();
      case Prepared(outcome) => utility.Prepared(outcome);
      case GuestSettled(ok) => utility.GuestSettled(ok);
      case LocalDestroySettled => utility.DestroySettled();
      case DestroySettled(ok) => lifecycle.DestroySettled(ok);
      case DeliverToUtility => DeliverToUtilityWorker();
      case DeliverToLifecycle(restoreOk) => DeliverToLifecycleWorker(restoreOk);
      case _ => DeliverToPage(e);
    }

    method DeliverToUtilityWorker()
      requires Possible(State(), DeliverToUtility)
      modifies page, utility
      ensures State() == Step(old(State()), DeliverToUtility)
    {
      hide UtilityOn;
      var message := page.toUtility[0];
      page.toUtility := page.toUtility[1..];
      utility.Handle(message);
    }

    method DeliverToLifecycleWorker(restoreOk: bool)
      requires Possible(State(), DeliverToLifecycle(restoreOk))
      modifies page, lifecycle
      ensures State() == Step(old(State()), DeliverToLifecycle(restoreOk))
    {
      hide LifecycleOn;
      var message := page.toLifecycle[0];
      page.toLifecycle := page.toLifecycle[1..];
      lifecycle.Handle(message, restoreOk);
    }

    method DeliverToPage(e: Event)
      requires Possible(State(), e) && (e.DeliverFromUtility? || e.DeliverFromLifecycle?)
      modifies page, utility, lifecycle
      ensures State() == Step(old(State()), e)
    {
      hide PageOnUtility, PageOnLifecycle;
      match e
      case DeliverFromUtility =>
        var message := utility.toPage[0];
        utility.toPage := utility.toPage[1..];
        page.OnUtilityMessage(message);
      case DeliverFromLifecycle =>
        var message := lifecycle.toPage[0];
        lifecycle.toPage := lifecycle.toPage[1..];
        page.OnLifecycleMessage(message);
    }

    method Happen(e: Event)
      requires Valid() && Possible(State(), e)
      modifies this, page, utility, lifecycle
      ensures Valid() && State() == Step(old(State()), e)
      ensures events == old(events) + [e] && states == old(states) + [State()]
    {
      hide Step, Possible;
      RunGrows(page.nextToken, states, events, e);
      Move(e);
      events, states := events + [e], states + [State()];
    }

    /**
     * Takes any events in the order they are offered, as far as they are possible.  However the queues are interleaved
     * and whatever fails, the Animal has one owner, and the promises mean what they say.
     */
    method Offer(offered: seq<Event>)
      requires Valid()
      modifies this, page, utility, lifecycle
      ensures Valid() && events == old(events) + Taken(old(State()), offered)
      ensures utility.destroyCalls + lifecycle.destroyCalls <= 1
      ensures utility.guestStarted ==> lifecycle.restored && utility.destroyCalls == 0
      ensures page.startup.Fulfilled? ==> page.adopted && lifecycle.restored && utility.guestStarted
      ensures page.disposal.Fulfilled? && utility.animalCreated ==> utility.destroyCalls + lifecycle.destroyCalls == 1
      ensures page.startup.Fulfilled? ==> GuestSettled(true) in events && GuestSettled(false) !in events
      ensures page.disposal.Fulfilled? && page.adopted ==>
        DestroySettled(true) in events && DestroySettled(false) !in events
      ensures page.terminal ==> (page.disposal.Rejected? <==> Faulted(states, events, |events|))
      ensures InternalSteps(events) <= 21
    {
      hide Step, Possible, IsRun, Faulted;
      ghost var start, before := State(), events;
      for i := 0 to |offered|
        invariant Valid() && events + Taken(State(), offered[i..]) == before + Taken(start, offered)
      {
        TakenNext(State(), offered, i);
        var possible := CanHappen(offered[i]);
        if possible { Happen(offered[i]); }
      }
      assert offered[|offered|..] == [];
      RunLength(page.nextToken, states, events);
      SingleOwner(page.nextToken, states, events, |events|);
      RunsAreShort(page.nextToken, states, events);
      assert events[..|events|] == events;
      if page.startup.Fulfilled? { StartupNeedsGuest(page.nextToken, states, events, |events|); }
      if page.disposal.Fulfilled? { DisposalNeedsDestroy(page.nextToken, states, events, |events|); }
      if page.terminal { ExactlyFaultsRejectDisposal(page.nextToken, states, events, |events|); }
      if page.disposal.Fulfilled? { KeptDisposalMeansDestroyed(page.nextToken, states, events, |events|, |events|); }
    }

    /** Asks for disposal and lets messages arrive and destroys settle until the page is terminal, which happens. */
    method DisposeToTheEnd(restoreOk: bool, destroyOk: bool)
      requires Valid()
      modifies this, page, utility, lifecycle
      ensures Valid() && page.terminal && page.disposal != Pending && old(events) + [CallDispose] <= events
      ensures forall i | |old(events)| < i < |events| :: Guaranteed(events[i])
      ensures page.disposal.Fulfilled? <==> !Faulted(states, events, |events|)
      ensures page.disposal.Fulfilled? && utility.animalCreated ==> utility.destroyCalls + lifecycle.destroyCalls == 1
    {
      hide Step, Possible, IsRun, Inv, Potential, Guaranteed, Faulted;
      DisposalIsAskedFor(State());
      CallsArePossible(State());
      Happen(CallDispose);
      while !page.terminal
        invariant Valid() && (page.terminal || page.disposeRequested) && old(events) + [CallDispose] <= events
        invariant forall i | |old(events)| < i < |events| :: Guaranteed(events[i])
        decreases Potential(State())
      {
        RunLength(page.nextToken, states, events);
        var next := NextGuaranteed(restoreOk, destroyOk);
        RequestStays(State(), next);
        InvThroughout(page.nextToken, states, events, |events|);
        GuaranteedIsInternal(next);
        InternalStepsLower(State(), next);
        Happen(next);
      }
      RunLength(page.nextToken, states, events);
      TerminalMeansSettled(page.nextToken, states, events, |events|);
      ExactlyFaultsRejectDisposal(page.nextToken, states, events, |events|);
      if page.disposal.Fulfilled? { KeptDisposalMeansDestroyed(page.nextToken, states, events, |events|, |events|); }
    }

    /** Whatever may be delivered or settle next. */
    method NextGuaranteed(restoreOk: bool, destroyOk: bool) returns (e: Event)
      requires Valid() && page.disposeRequested && !page.terminal
      ensures Guaranteed(e) && Possible(State(), e)
    {
      hide Step, IsRun, Inv, NothingLost;
      RunLength(page.nextToken, states, events);
      DisposalIsNeverStuck(page.nextToken, states, events, |events|);
      if page.toUtility != [] { return DeliverToUtility; }
      if page.toLifecycle != [] { return DeliverToLifecycle(restoreOk); }
      if utility.toPage != [] { return DeliverFromUtility; }
      if lifecycle.toPage != [] { return DeliverFromLifecycle; }
      if utility.phase.DestroyingLocally? { return LocalDestroySettled; }
      return DestroySettled(destroyOk);
    }
  }
}
