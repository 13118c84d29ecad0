/**
 * What becomes of the two promises, traced back to what happened: the guest's start, the destroy call and every fault.
 */
module HandshakeOutcomes {
  import opened Basics
  import opened Handshake
  import opened HandshakeSafety
  import opened HandshakeTermination

  // ---------- the guest's start decides the startup promise ----------

  /** What a guest that has started or failed to start leaves behind. */
  ghost predicate GuestSettledOnce(u: Utility, past: seq<Event>) {
    && (GuestSettled(true) in past ==> u.guestStarted && u.phase.Over? && !u.handlerTerminal)
    && (GuestSettled(false) in past ==> u.guestStarted && u.phase.Over? && u.handlerTerminal)
    && (u.guestStarted && u.phase.Over? ==> GuestSettled(true) in past || GuestSettled(false) in past)
  }

  /** Readiness stands for a guest that started, and a guest that did not has been or will be reported. */
  ghost predicate ReadyMeansStarted(s: System, past: seq<Event>) {
    var p, u := s.page, s.utility;
    && (Ready in u.toPage || p.ready ==> GuestSettled(true) in past)
    && (GuestSettled(true) in past && !p.terminal && !p.disposeRequested ==> Ready in u.toPage || p.ready)
    && (GuestSettled(false) in past && !p.terminal ==> UtilityFatal in u.toPage || !p.startup.Pending?)
    && (p.ready <==> p.startup.Fulfilled?)
    && (p.startup.Rejected? ==> p.disposeRequested || p.terminal || p.adoptionFailure)
  }

  ghost predicate GuestTraced(s: System, past: seq<Event>) {
    GuestSettledOnce(s.utility, past) && ReadyMeansStarted(s, past)
  }

  lemma GuestTracedByCalls(s: System, past: seq<Event>, e: Event)
    requires Inv(s) && GuestTraced(s, past) && External(e)
    ensures GuestTraced(Step(s, e), past + [e])
  {
  }

  lemma GuestTracedOnTheWayOut(s: System, past: seq<Event>, e: Event)
    requires Inv(s) && GuestTraced(s, past) && Possible(s, e) && (e.DeliverToUtility? || e.DeliverToLifecycle?)
    ensures GuestTraced(Step(s, e), past + [e])
  {
    if e.DeliverToUtility? { Popped(s.page.toUtility); } else { Popped(s.page.toLifecycle); }
  }

  lemma GuestTracedFromUtility(s: System, past: seq<Event>)
    requires Inv(s) && GuestTraced(s, past) && s.utility.toPage != []
    ensures GuestTraced(Step(s, DeliverFromUtility), past + [DeliverFromUtility])
  {
    Popped(s.utility.toPage);
  }

  lemma GuestTracedFromLifecycle(s: System, past: seq<Event>)
    requires Inv(s) && GuestTraced(s, past) && s.lifecycle.toPage != []
    ensures GuestTraced(Step(s, DeliverFromLifecycle), past + [DeliverFromLifecycle])
  {
    Popped(s.lifecycle.toPage);
  }

  lemma GuestTracedSettling(s: System, past: seq<Event>, e: Event)
    requires Inv(s) && GuestTraced(s, past) && Possible(s, e)
    requires e.Prepared? || e.GuestSettled? || e.LocalDestroySettled? || e.DestroySettled?
    ensures GuestTraced(Step(s, e), past + [e])
  {
  }

  lemma GuestTracedStep(s: System, past: seq<Event>, e: Event)
    requires Inv(s) && GuestTraced(s, past) && Possible(s, e)
    ensures GuestTraced(Step(s, e), past + [e])
  {
    hide Inv, GuestTraced, Step;
    if External(e) { GuestTracedByCalls(s, past, e); }
    else if e.DeliverFromUtility? { GuestTracedFromUtility(s, past); }
    else if e.DeliverFromLifecycle? { GuestTracedFromLifecycle(s, past); }
    else if e.DeliverToUtility? || e.DeliverToLifecycle? { GuestTracedOnTheWayOut(s, past, e); }
    else { GuestTracedSettling(s, past, e); }
  }

  lemma GuestTracedAtStart(token: Token)
    ensures GuestTraced(Start(token), [])
  {
  }

  lemma {:induction false} GuestTracedThroughout(token: Token, states: seq<System>, events: seq<Event>, i: nat)
    requires IsRun(token, states, events) && i < |states|
    ensures Inv(states[i]) && GuestTraced(states[i], events[..i])
  {
    hide Inv, GuestTraced, Step;
    if i == 0 {
      InvAtStart(token);
      GuestTracedAtStart(token);
      assert events[..0] == [];
    } else {
      GuestTracedThroughout(token, states, events, i - 1);
      InvStep(states[i - 1], events[i - 1]);
      GuestTracedStep(states[i - 1], events[..i - 1], events[i - 1]);
      assert events[..i] == events[..i - 1] + [events[i - 1]];
    }
  }

  /** Startup is kept only if the guest has started, and never if its start failed. */
  lemma StartupNeedsGuest(token: Token, states: seq<System>, events: seq<Event>, i: nat)
    requires IsRun(token, states, events) && i < |states|
    requires states[i].page.startup.Fulfilled?
    ensures GuestSettled(true) in events[..i] && GuestSettled(false) !in events[..i]
  {
    GuestTracedThroughout(token, states, events, i);
  }

  /** Once the guest has settled and the utility worker's messages have arrived, startup is settled the same way. */
  lemma GuestDecidesStartup(token: Token, states: seq<System>, events: seq<Event>, i: nat)
    requires IsRun(token, states, events) && i < |states| && states[i].utility.toPage == [] && !states[i].page.terminal
    ensures GuestSettled(true) in events[..i] && !states[i].page.disposeRequested ==> states[i].page.startup.Fulfilled?
    ensures GuestSettled(false) in events[..i] ==> states[i].page.startup.Rejected?
  {
    GuestTracedThroughout(token, states, events, i);
  }

  // ---------- destroying decides the disposal promise ----------

  ghost predicate DestroyTraced(s: System, past: seq<Event>) {
    var p, u, l := s.page, s.utility, s.lifecycle;
    && (l.outcome.Succeeded? <==> DestroySettled(true) in past)
    && (l.outcome.Failed? <==> DestroySettled(false) in past)
    && (u.destroyCalls > 0 && !u.phase.DestroyingLocally? ==> LocalDestroySettled in past)
    && (p.disposal.Fulfilled? && p.adopted ==> l.outcome.Succeeded?)
    && (p.disposal.Fulfilled? && u.animalCreated && !p.adopted ==> u.destroyCalls > 0 && u.phase.Over?)
  }

  lemma DestroyTracedByCalls(s: System, past: seq<Event>, e: Event)
    requires Inv(s) && DestroyTraced(s, past) && External(e)
    ensures DestroyTraced(Step(s, e), past + [e])
  {
  }

  lemma DestroyTracedOnTheWayOut(s: System, past: seq<Event>, e: Event)
    requires Inv(s) && DestroyTraced(s, past) && Possible(s, e) && (e.DeliverToUtility? || e.DeliverToLifecycle?)
    ensures DestroyTraced(Step(s, e), past + [e])
  {
    if e.DeliverToUtility? { Popped(s.page.toUtility); } else { Popped(s.page.toLifecycle); }
  }

  lemma DestroyTracedFromUtility(s: System, past: seq<Event>)
    requires Inv(s) && DestroyTraced(s, past) && s.utility.toPage != []
    ensures DestroyTraced(Step(s, DeliverFromUtility), past + [DeliverFromUtility])
  {
    Popped(s.utility.toPage);
  }

  lemma DestroyTracedFromLifecycle(s: System, past: seq<Event>)
    requires Inv(s) && DestroyTraced(s, past) && s.lifecycle.toPage != []
    ensures DestroyTraced(Step(s, DeliverFromLifecycle), past + [DeliverFromLifecycle])
  {
    Popped(s.lifecycle.toPage);
  }

  lemma DestroyTracedSettling(s: System, past: seq<Event>, e: Event)
    requires Inv(s) && DestroyTraced(s, past) && Possible(s, e)
    requires e.Prepared? || e.GuestSettled? || e.LocalDestroySettled? || e.DestroySettled?
    ensures DestroyTraced(Step(s, e), past + [e])
  {
  }

  lemma DestroyTracedStep(s: System, past: seq<Event>, e: Event)
    requires Inv(s) && DestroyTraced(s, past) && Possible(s, e)
    ensures DestroyTraced(Step(s, e), past + [e])
  {
    hide Inv, DestroyTraced, Step;
    if External(e) { DestroyTracedByCalls(s, past, e); }
    else if e.DeliverFromUtility? { DestroyTracedFromUtility(s, past); }
    else if e.DeliverFromLifecycle? { DestroyTracedFromLifecycle(s, past); }
    else if e.DeliverToUtility? || e.DeliverToLifecycle? { DestroyTracedOnTheWayOut(s, past, e); }
    else { DestroyTracedSettling(s, past, e); }
  }

  lemma DestroyTracedAtStart(token: Token)
    ensures DestroyTraced(Start(token), [])
  {
  }

  lemma {:induction false} DestroyTracedThroughout(token: Token, states: seq<System>, events: seq<Event>, i: nat)
    requires IsRun(token, states, events) && i < |states|
    ensures Inv(states[i]) && DestroyTraced(states[i], events[..i])
  {
    hide Inv, DestroyTraced, Step;
    if i == 0 {
      InvAtStart(token);
      DestroyTracedAtStart(token);
      assert events[..0] == [];
    } else {
      DestroyTracedThroughout(token, states, events, i - 1);
      InvStep(states[i - 1], events[i - 1]);
      DestroyTracedStep(states[i - 1], events[..i - 1], events[i - 1]);
      assert events[..i] == events[..i - 1] + [events[i - 1]];
    }
  }

  /**
   * Disposal is kept only if the Animal's owner has settled its destroy call, and well if that is the lifecycle worker.
   */
  lemma DisposalNeedsDestroy(token: Token, states: seq<System>, events: seq<Event>, i: nat)
    requires IsRun(token, states, events) && i < |states|
    requires states[i].page.disposal.Fulfilled?
    ensures states[i].page.adopted ==> DestroySettled(true) in events[..i] && DestroySettled(false) !in events[..i]
    ensures states[i].utility.animalCreated && !states[i].page.adopted ==> LocalDestroySettled in events[..i]
  {
    DestroyTracedThroughout(token, states, events, i);
  }

  // ---------- how far preparation got ----------

  /** The Animal exists only if its constructor returned, and is published only if that worked too. */
  ghost predicate PreparationTraced(u: Utility, past: seq<Event>) {
    && (u.phase.Idle? || u.phase.Preparing? ==> forall outcome :: Prepared(outcome) !in past)
    && (u.published <==> Prepared(Constructed) in past && !u.cancelled)
    && (u.animalCreated <==> u.published || (Prepared(PublicationThrows) in past && !u.cancelled))
  }

  lemma PreparationTracedStep(s: System, past: seq<Event>, e: Event)
    requires Inv(s) && PreparationTraced(s.utility, past) && Possible(s, e)
    ensures PreparationTraced(Step(s, e).utility, past + [e])
  {
    hide PageOnUtility, PageOnLifecycle, PageInitialize, PageDispose, PageOnUtilityBoundary, FailImmediately;
    hide LifecycleOn, LifecycleDestroySettled;
  }

  lemma PreparationTracedAtStart(token: Token)
    ensures PreparationTraced(Start(token).utility, [])
  {
  }

  lemma {:induction false} PreparationTracedThroughout(token: Token, states: seq<System>, events: seq<Event>, i: nat)
    requires IsRun(token, states, events) && i < |states|
    ensures PreparationTraced(states[i].utility, events[..i])
  {
    hide Inv, PreparationTraced, Step;
    if i == 0 {
      PreparationTracedAtStart(token);
      assert events[..0] == [];
    } else {
      PreparationTracedThroughout(token, states, events, i - 1);
      InvThroughout(token, states, events, i - 1);
      PreparationTracedStep(states[i - 1], events[..i - 1], events[i - 1]);
      assert events[..i] == events[..i - 1] + [events[i - 1]];
    }
  }

  // ---------- error events ----------

  /**
   * An error of the utility worker rejects startup and asks for disposal; it ends the handshake at once if the
   * lifecycle worker was never given a destroyer or could not restore it, and else the destroy request goes out if it
   * can.  An error of the lifecycle worker always ends it.
   */
  lemma WhatErrorEventsDo(s: System)
    requires Inv(s) && NothingLost(s) && !s.page.terminal
    ensures var p := Step(s, UtilityBoundary).page;
      && !p.startup.Pending? && p.failure && (p.terminal || p.disposeRequested)
      && (p.terminal <==> !s.page.destroyerReceived || s.page.adoptionFailure)
      && (s.page.adopted ==> p.destroyToken.Some?)
    ensures var p := Step(s, LifecycleBoundary).page;
      p.terminal && p.failure && !p.startup.Pending? && p.disposal.Rejected?
  {
    WhatBeginningToFailDoes(s.page);
    WhatFailingDoes(s.page);
    hide BeginFailureDisposal, FailImmediately;
  }

  // ---------- exactly the faults reject disposal ----------

  /**
   * While the page is not terminal: an error event of a worker, a destroyer that cannot be restored, a destroy call
   * that fails, or a failure of the utility worker that arrives before anybody asked for disposal.
   */
  predicate Fault(s: System, e: Event)
    requires Possible(s, e)
  {
    !s.page.terminal
    && match e
       case UtilityBoundary => true
       case LifecycleBoundary => true
       case DeliverToLifecycle(restoreOk) => !restoreOk && s.page.toLifecycle[0].Adopt?
       case DestroySettled(ok) => !ok
       case DeliverFromUtility => s.utility.toPage[0].UtilityFatal? && !s.page.disposeRequested
       case _ => false
  }

  ghost predicate FaultTraced(s: System, faulted: bool) {
    var p, l := s.page, s.lifecycle;
    && (p.disposal.Rejected? || p.failure || p.adoptionFailure ==> faulted)
    && (!p.terminal && ((l.adoptHandled && !l.restored) || l.outcome.Failed?) ==> faulted)
    && (faulted ==>
          && !p.disposal.Fulfilled?
          && (p.terminal || p.failure || (l.adoptHandled && !l.restored) || l.outcome.Failed?))
  }

  lemma FaultTracedByCalls(s: System, faulted: bool, e: Event)
    requires Inv(s) && FaultTraced(s, faulted) && External(e)
    ensures FaultTraced(Step(s, e), faulted || Fault(s, e))
  {
  }

  lemma FaultTracedOnTheWayOut(s: System, faulted: bool, e: Event)
    requires Inv(s) && FaultTraced(s, faulted) && Possible(s, e) && (e.DeliverToUtility? || e.DeliverToLifecycle?)
    ensures FaultTraced(Step(s, e), faulted || Fault(s, e))
  {
    if e.DeliverToUtility? { Popped(s.page.toUtility); } else { Popped(s.page.toLifecycle); }
  }

  lemma FaultTracedFromUtility(s: System, faulted: bool)
    requires Inv(s) && FaultTraced(s, faulted) && s.utility.toPage != []
    ensures FaultTraced(Step(s, DeliverFromUtility), faulted || Fault(s, DeliverFromUtility))
  {
    Popped(s.utility.toPage);
  }

  lemma FaultTracedFromLifecycle(s: System, faulted: bool)
    requires Inv(s) && FaultTraced(s, faulted) && s.lifecycle.toPage != []
    ensures FaultTraced(Step(s, DeliverFromLifecycle), faulted)
  {
    Popped(s.lifecycle.toPage);
  }

  lemma FaultTracedSettling(s: System, faulted: bool, e: Event)
    requires Inv(s) && FaultTraced(s, faulted) && Possible(s, e)
    requires e.Prepared? || e.GuestSettled? || e.LocalDestroySettled? || e.DestroySettled?
    ensures FaultTraced(Step(s, e), faulted || Fault(s, e))
  {
  }

  lemma FaultTracedStep(s: System, faulted: bool, e: Event)
    requires Inv(s) && FaultTraced(s, faulted) && Possible(s, e)
    ensures FaultTraced(Step(s, e), faulted || Fault(s, e))
  {
    hide Inv, FaultTraced, Step;
    if External(e) { FaultTracedByCalls(s, faulted, e); }
    else if e.DeliverFromUtility? { FaultTracedFromUtility(s, faulted); }
    else if e.DeliverFromLifecycle? { FaultTracedFromLifecycle(s, faulted); }
    else if e.DeliverToUtility? || e.DeliverToLifecycle? { FaultTracedOnTheWayOut(s, faulted, e); }
    else { FaultTracedSettling(s, faulted, e); }
  }

  lemma FaultTracedAtStart(token: Token)
    ensures FaultTraced(Start(token), false)
  {
  }

  /** Something went wrong in the first i events. */
  ghost predicate Faulted(states: seq<System>, events: seq<Event>, i: nat)
    requires |states| == |events| + 1 && i <= |events|
  {
    exists k | 0 <= k < i :: Possible(states[k], events[k]) && Fault(states[k], events[k])
  }

  lemma {:induction false} FaultTracedThroughout(token: Token, states: seq<System>, events: seq<Event>, i: nat)
    requires IsRun(token, states, events) && i < |states|
    ensures Inv(states[i]) && FaultTraced(states[i], Faulted(states, events, i))
  {
    hide Inv, FaultTraced, Fault, Step;
    if i == 0 {
      InvAtStart(token);
      FaultTracedAtStart(token);
    } else {
      FaultTracedThroughout(token, states, events, i - 1);
      InvStep(states[i - 1], events[i - 1]);
      FaultTracedStep(states[i - 1], Faulted(states, events, i - 1), events[i - 1]);
    }
  }

  /** When the handshake is over, disposal has been rejected exactly if there was a fault, and else kept. */
  lemma ExactlyFaultsRejectDisposal(token: Token, states: seq<System>, events: seq<Event>, i: nat)
    requires IsRun(token, states, events) && i < |states| && states[i].page.terminal
    ensures states[i].page.disposal.Rejected? <==> Faulted(states, events, i)
    ensures states[i].page.disposal.Fulfilled? <==> !Faulted(states, events, i)
  {
    FaultTracedThroughout(token, states, events, i);
  }

  // ---------- the failure that is reported ----------

  /** The first failure after readiness counts as reported, unless disposal was asked for, and no other. */
  ghost predicate ReportsFirst(p: Page, q: Page) {
    q.fatalReports == p.fatalReports + if !p.failure && q.failure && p.ready && !p.disposeRequested then 1 else 0
  }

  lemma UtilityMessageReports(s: System)
    requires Inv(s) && s.utility.toPage != []
    ensures ReportsFirst(s.page, PageOnUtility(s.page, s.utility.toPage[0]))
  {
    if !s.page.terminal {
      WhatBeginningToFailDoes(s.page);
      WhatFailingDoes(s.page);
    }
    hide BeginFailureDisposal, FailImmediately;
    Popped(s.utility.toPage);
  }

  lemma LifecycleMessageReports(s: System)
    requires Inv(s) && s.lifecycle.toPage != []
    ensures ReportsFirst(s.page, PageOnLifecycle(s.page, s.lifecycle.toPage[0]))
  {
    if !s.page.terminal {
      WhatBeginningToFailDoes(s.page);
      WhatFailingDoes(s.page);
    }
    hide BeginFailureDisposal, FailImmediately;
    Popped(s.lifecycle.toPage);
  }

  lemma CallsReport(s: System)
    requires Inv(s)
    ensures ReportsFirst(s.page, PageInitialize(s.page)) && ReportsFirst(s.page, PageDispose(s.page))
    ensures ReportsFirst(s.page, PageOnUtilityBoundary(s.page)) && ReportsFirst(s.page, FailImmediately(s.page))
  {
    if !s.page.terminal {
      WhatBeginningToFailDoes(s.page);
      WhatFailingDoes(s.page);
    }
    hide BeginFailureDisposal;
  }

  /** The consumer hears of the first failure after readiness, unless disposal was asked for, and of no other. */
  lemma FirstFailureIsReported(s: System, e: Event)
    requires Inv(s) && Possible(s, e)
    ensures ReportsFirst(s.page, Step(s, e).page)
  {
    hide PageOnUtility, PageOnLifecycle, PageInitialize, PageDispose, PageOnUtilityBoundary, FailImmediately;
    hide UtilityOn, LifecycleOn, UtilityPrepared, UtilityGuestSettled, UtilityDestroySettled, LifecycleDestroySettled;
    CallsReport(s);
    if e.DeliverFromUtility? { UtilityMessageReports(s); }
    if e.DeliverFromLifecycle? { LifecycleMessageReports(s); }
    hide Inv;
  }

  // ---------- when nothing goes wrong ----------

  /** Nobody disposes, nothing fails and no error event arrives. */
  predicate Smooth(e: Event) {
    match e
    case CallDispose => false
    case UtilityBoundary => false
    case LifecycleBoundary => false
    case DeliverToLifecycle(restoreOk) => restoreOk
    case Prepared(outcome) => outcome.Constructed?
    case GuestSettled(ok) => ok
    case _ => true
  }

  /** The ten states of a startup in which all goes well. */
  function Course(token: Token, n: nat): System
    requires n <= 9
  {
    var page := NewPage(token).(
      initialized := n >= 1, destroyerReceived := n >= 4, adopted := n >= 6, ready := n == 9,
      startup := if n == 9 then Fulfilled else Pending,
      toUtility := if n == 1 then [Initialize] else if n == 6 then [DestroyerAdopted] else [],
      toLifecycle := if n == 4 then [Adopt] else []);
    var utility := NewUtility().(
      initialized := n >= 2, animalCreated := n >= 3, published := n >= 3,
      adopted := n >= 7, lifecycleOwnsDestroyer := n >= 7, guestStarted := n >= 7,
      adoption := if n >= 7 then Fulfilled else Pending,
      phase := if n < 2 then Idle else if n == 2 then Preparing else if n < 7 then AwaitingAdoption
               else if n == 7 then StartingGuest else Over,
      toPage := if n == 3 then [Destroyer] else if n == 8 then [Ready] else []);
    var lifecycle := NewLifecycle().(
      adoptHandled := n >= 5, restored := n >= 5, toPage := if n == 5 then [Adopted] else []);
    System(page, utility, lifecycle)
  }

  lemma CourseStep(token: Token, n: nat, e: Event)
    requires n <= 9 && Smooth(e) && Possible(Course(token, n), e)
    ensures if e.CallInitialize? then Step(Course(token, n), e) == Course(token, if n == 0 then 1 else n)
            else 0 < n < 9 && Step(Course(token, n), e) == Course(token, n + 1)
  {
  }

  lemma CourseMoves(token: Token, n: nat)
    requires 0 < n < 9
    ensures exists e :: Smooth(e) && !External(e) && Possible(Course(token, n), e)
  {
    var s := Course(token, n);
    var e := [DeliverToUtility, Prepared(Constructed), DeliverFromUtility, DeliverToLifecycle(true),
              DeliverFromLifecycle, DeliverToUtility, GuestSettled(true), DeliverFromUtility][n - 1];
    assert Smooth(e) && !External(e) && Possible(s, e);
  }

  ghost predicate SmoothRun(token: Token, states: seq<System>, events: seq<Event>) {
    IsRun(token, states, events) && forall k | 0 <= k < |events| :: Smooth(events[k])
  }

  /** Whatever the order, a smooth run is somewhere on that course. */
  lemma {:induction false} SmoothRunsStayOnCourse(token: Token, states: seq<System>, events: seq<Event>, i: nat)
    returns (n: nat)
    requires SmoothRun(token, states, events) && i < |states|
    ensures n <= 9 && states[i] == Course(token, n) && (n == 0 <==> CallInitialize !in events[..i])
  {
    hide Step, Course, Smooth, Possible;
    if i == 0 {
      n := 0;
      CourseStarts(token);
      assert events[..0] == [];
    } else {
      n := SmoothRunsStayOnCourse(token, states, events, i - 1);
      CourseStep(token, n, events[i - 1]);
      assert events[..i] == events[..i - 1] + [events[i - 1]];
      if !events[i - 1].CallInitialize? || n == 0 { n := n + 1; }
    }
  }

  lemma CourseStarts(token: Token)
    ensures Course(token, 0) == Start(token)
  {
  }

  /**
   * A smooth startup comes to its end with the promise kept, and a promise is rejected only in a run that is not
   * smooth.
   */
  lemma SmoothStartupIsKept(token: Token, states: seq<System>, events: seq<Event>, i: nat)
    requires SmoothRun(token, states, events) && i < |states|
    ensures !states[i].page.startup.Rejected? && states[i].page.disposal.Pending?
    ensures CallInitialize in events[..i] && (forall e | Smooth(e) && Possible(states[i], e) :: External(e)) ==>
      states[i].page.startup.Fulfilled?
  {
    var n := SmoothRunsStayOnCourse(token, states, events, i);
    if 0 < n < 9 { CourseMoves(token, n); }
  }

  /** Behind every rejected startup there is a call for disposal, an error event or an outcome that is not good. */
  lemma RejectedStartupHasCause(token: Token, states: seq<System>, events: seq<Event>, i: nat)
    requires IsRun(token, states, events) && i < |states| && states[i].page.startup.Rejected?
    ensures exists k | 0 <= k < i :: !Smooth(events[k])
  {
    hide Step, Smooth, Possible;
    if forall k | 0 <= k < i :: Smooth(events[k]) {
      assert SmoothRun(token, states[..i + 1], events[..i]);
      SmoothStartupIsKept(token, states[..i + 1], events[..i], i);
      assert false;
    }
  }
}
