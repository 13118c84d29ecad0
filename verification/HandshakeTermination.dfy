/** Disposal ends: every run is short, and until the end there is always a message to deliver or a destroy to settle. */
module HandshakeTermination {
  import opened Basics
  import opened Handshake
  import opened HandshakeSafety

  // ---------- a measure every delivery and settlement lowers ----------

  function If(b: bool, weight: nat): nat { if b then weight else 0 }

  function PhaseWeight(phase: Phase): nat {
    match phase
    case Preparing => 9
    case AwaitingAdoption => 3
    case StartingGuest => 2
    case DestroyingLocally => 2
    case _ => 0
  }

  function PagePotential(p: Page): nat {
    If(!p.initialized, 12) + If(!p.cancellationRequested, 3) + If(p.destroyToken.None?, 6)
    + If(Initialize in p.toUtility, 11) + If(CancelBeforeDestroyer in p.toUtility, 2)
    + If(DestroyerAdopted in p.toUtility, 2) + If(AdoptionFailed in p.toUtility, 2)
    + If(Adopt in p.toLifecycle, 4) + If(Destroy(p.nextToken) in p.toLifecycle, 5)
  }

  function UtilityPotential(u: Utility): nat {
    PhaseWeight(u.phase)
    + If(Destroyer in u.toPage, 5) + If(CancelledBeforeDestroyer in u.toPage, 1)
    + If(Ready in u.toPage, 1) + If(UtilityFatal in u.toPage, 1)
  }

  function LifecyclePotential(l: Lifecycle, token: Token): nat {
    If(l.outcome.InFlight?, 3)
    + If(Adopted in l.toPage, 3) + If(AdoptFatal in l.toPage, 3)
    + If(Destroyed(token) in l.toPage, 1) + If(DestroyFatal(token) in l.toPage, 1)
  }

  function Potential(s: System): nat {
    PagePotential(s.page) + UtilityPotential(s.utility) + LifecyclePotential(s.lifecycle, s.page.nextToken)
  }

  lemma CallsDoNotRaise(s: System, e: Event)
    requires Inv(s) && External(e)
    ensures Potential(Step(s, e)) <= Potential(s)
  {
    if !s.page.terminal {
      WhatBeginningToFailDoes(s.page);
      WhatFailingDoes(s.page);
    }
    hide BeginFailureDisposal, FailImmediately, ReportsAfterFailure;
    if s.page.terminal { TerminalStays(s.page); }
  }

  lemma DeliveriesToUtilityLower(s: System)
    requires Inv(s) && s.page.toUtility != []
    ensures Potential(Step(s, DeliverToUtility)) < Potential(s)
  {
    Popped(s.page.toUtility);
  }

  lemma DeliveriesToLifecycleLower(s: System, ok: bool)
    requires Inv(s) && s.page.toLifecycle != []
    ensures Potential(Step(s, DeliverToLifecycle(ok))) < Potential(s)
  {
    Popped(s.page.toLifecycle);
  }

  lemma UtilityFatalLowers(s: System)
    requires Inv(s) && s.utility.toPage != [] && s.utility.toPage[0].UtilityFatal?
    ensures Potential(Step(s, DeliverFromUtility)) < Potential(s)
  {
    Popped(s.utility.toPage);
    if !s.page.terminal { WhatBeginningToFailDoes(s.page); }
    hide BeginFailureDisposal, ReportsAfterFailure;
  }

  lemma DestroyerLowers(s: System)
    requires Inv(s) && s.utility.toPage != [] && s.utility.toPage[0].Destroyer?
    ensures Potential(Step(s, DeliverFromUtility)) < Potential(s)
  {
    Popped(s.utility.toPage);
    if !s.page.terminal { WhatBeginningToFailDoes(s.page); }
    hide BeginFailureDisposal, ReportsAfterFailure;
  }

  lemma ReadyOrCancelledLowers(s: System)
    requires Inv(s) && s.utility.toPage != []
    requires (s.utility.toPage[0].Ready? || s.utility.toPage[0].CancelledBeforeDestroyer?)
    ensures Potential(Step(s, DeliverFromUtility)) < Potential(s)
  {
    Popped(s.utility.toPage);
    if !s.page.terminal {
      WhatBeginningToFailDoes(s.page);
      WhatFailingDoes(s.page);
    }
    hide BeginFailureDisposal, FailImmediately, ReportsAfterFailure;
  }

  lemma DeliveriesFromUtilityLower(s: System)
    requires Inv(s) && s.utility.toPage != []
    ensures Potential(Step(s, DeliverFromUtility)) < Potential(s)
  {
    hide Inv, Step, Potential;
    NoControlFatal(s);
    match s.utility.toPage[0] {
      case UtilityFatal => UtilityFatalLowers(s);
      case Destroyer => DestroyerLowers(s);
      case _ => ReadyOrCancelledLowers(s);
    }
  }

  lemma AdoptionLowers(s: System)
    requires Inv(s) && s.lifecycle.toPage != [] && (s.lifecycle.toPage[0].Adopted? || s.lifecycle.toPage[0].AdoptFatal?)
    ensures Potential(Step(s, DeliverFromLifecycle)) < Potential(s)
  {
    Popped(s.lifecycle.toPage);
  }

  lemma DestructionLowers(s: System)
    requires Inv(s) && s.lifecycle.toPage != []
    requires s.lifecycle.toPage[0].Destroyed? || s.lifecycle.toPage[0].DestroyFatal?
    ensures Potential(Step(s, DeliverFromLifecycle)) < Potential(s)
  {
    Popped(s.lifecycle.toPage);
  }

  lemma SettlementsLower(s: System, e: Event)
    requires Inv(s) && Possible(s, e)
    requires e.Prepared? || e.GuestSettled? || e.LocalDestroySettled? || e.DestroySettled?
    ensures Potential(Step(s, e)) < Potential(s)
  {
    if e.DestroySettled? { AnswersOne(if e.destroyOk then Succeeded else Failed, s.page.nextToken); }
  }

  lemma InternalStepsLower(s: System, e: Event)
    requires Inv(s) && Possible(s, e) && !External(e)
    ensures Potential(Step(s, e)) < Potential(s)
  {
    hide Inv, Step, Potential;
    match e {
      case DeliverToUtility => DeliveriesToUtilityLower(s);
      case DeliverToLifecycle(ok) => DeliveriesToLifecycleLower(s, ok);
      case DeliverFromUtility => DeliveriesFromUtilityLower(s);
      case DeliverFromLifecycle =>
        match s.lifecycle.toPage[0] {
          case Adopted => AdoptionLowers(s);
          case AdoptFatal => AdoptionLowers(s);
          case _ => DestructionLowers(s);
        }
      case _ => SettlementsLower(s, e);
    }
  }

  function InternalSteps(events: seq<Event>): nat {
    if events == [] then 0
    else InternalSteps(events[..|events| - 1]) + If(!External(events[|events| - 1]), 1)
  }

  /** Whatever is called and however often error events arrive: 21 deliveries and settlements at most. */
  lemma {:induction false} RunsAreShort(token: Token, states: seq<System>, events: seq<Event>)
    requires IsRun(token, states, events)
    ensures InternalSteps(events) + Potential(states[|events|]) <= 21
  {
    var n := |events|;
    if n > 0 {
      RunsAreShort(token, states[..n], events[..n - 1]);
      var s, e := states[n - 1], events[n - 1];
      InvThroughout(token, states, events, n - 1);
      if External(e) { CallsDoNotRaise(s, e); } else { InternalStepsLower(s, e); }
    }
  }

  // ---------- nothing gets stuck ----------

  /** While the page is not terminal nothing that was posted has been dropped unheard. */
  ghost predicate NothingLost(s: System) {
    var p, u, l := s.page, s.utility, s.lifecycle;
    !p.terminal ==>
      && (u.published ==> p.destroyerReceived || Destroyer in u.toPage)
      && (l.restored ==> p.adopted || Adopted in l.toPage)
      && (l.adoptHandled && !l.restored ==> p.adoptionFailure || AdoptFatal in l.toPage)
      && (p.disposeRequested && p.adopted ==> p.destroyToken.Some?)
      && (p.disposeRequested && !p.destroyerReceived ==> p.cancellationRequested)
      && (l.outcome.Succeeded? ==> Destroyed(p.nextToken) in l.toPage)
      && (l.outcome.Failed? ==> DestroyFatal(p.nextToken) in l.toPage)
      && (p.cancellationRequested ==>
            CancelBeforeDestroyer in p.toUtility || u.cancelled || u.animalCreated || u.handlerTerminal)
      && (u.cancelled ==> CancelledBeforeDestroyer in u.toPage)
      && (u.handlerTerminal && !u.adopted ==> UtilityFatal in u.toPage)
      && (u.phase.Over? && !u.adopted ==> u.handlerTerminal)
      && (p.adoptionFailure ==> AdoptionFailed in p.toUtility || u.adoption.Rejected?)
  }

  lemma NothingLostByCalls(s: System, e: Event)
    requires Inv(s) && NothingLost(s) && External(e)
    ensures NothingLost(Step(s, e))
  {
  }

  lemma NothingLostOnTheWayOut(s: System, e: Event)
    requires Inv(s) && NothingLost(s) && Possible(s, e) && (e.DeliverToUtility? || e.DeliverToLifecycle?)
    ensures NothingLost(Step(s, e))
  {
    if e.DeliverToUtility? { Popped(s.page.toUtility); } else { Popped(s.page.toLifecycle); }
  }

  lemma NothingLostFromUtility(s: System)
    requires Inv(s) && NothingLost(s) && s.utility.toPage != []
    ensures NothingLost(Step(s, DeliverFromUtility))
  {
    Popped(s.utility.toPage);
  }

  lemma NothingLostFromLifecycle(s: System)
    requires Inv(s) && NothingLost(s) && s.lifecycle.toPage != []
    ensures NothingLost(Step(s, DeliverFromLifecycle))
  {
    Popped(s.lifecycle.toPage);
  }

  lemma NothingLostSettling(s: System, e: Event)
    requires Inv(s) && NothingLost(s) && Possible(s, e)
    requires e.Prepared? || e.GuestSettled? || e.LocalDestroySettled? || e.DestroySettled?
    ensures NothingLost(Step(s, e))
  {
    if e.DestroySettled? { AnswersOne(if e.destroyOk then Succeeded else Failed, s.page.nextToken); }
  }

  lemma {:induction false} NothingLostThroughout(token: Token, states: seq<System>, events: seq<Event>, i: nat)
    requires IsRun(token, states, events) && i < |states|
    ensures Inv(states[i]) && NothingLost(states[i])
  {
    hide Inv, NothingLost, Step;
    if i == 0 {
      InvAtStart(token);
      NothingLostAtStart(token);
    } else {
      NothingLostThroughout(token, states, events, i - 1);
      var s, e := states[i - 1], events[i - 1];
      InvStep(s, e);
      if External(e) { NothingLostByCalls(s, e); }
      else if e.DeliverFromUtility? { NothingLostFromUtility(s); }
      else if e.DeliverFromLifecycle? { NothingLostFromLifecycle(s); }
      else if e.DeliverToUtility? || e.DeliverToLifecycle? { NothingLostOnTheWayOut(s, e); }
      else { NothingLostSettling(s, e); }
    }
  }

  lemma NothingLostAtStart(token: Token)
    ensures NothingLost(Start(token))
  {
  }

  /** Steps that happen as long as channels deliver and async_destroy calls settle. */
  predicate Guaranteed(e: Event) {
    e.DeliverToUtility? || e.DeliverToLifecycle? || e.DeliverFromUtility? || e.DeliverFromLifecycle?
    || e.LocalDestroySettled? || e.DestroySettled?
  }

  /**
   * Once disposal is asked for, a guaranteed step is possible until the page is terminal; no prepare or guest need
   * settle.
   */
  lemma DisposalIsNeverStuck(token: Token, states: seq<System>, events: seq<Event>, i: nat)
    requires IsRun(token, states, events) && i < |states|
    requires states[i].page.disposeRequested && !states[i].page.terminal
    ensures exists e :: Guaranteed(e) && Possible(states[i], e)
  {
    NothingLostThroughout(token, states, events, i);
    SomethingToDo(states[i]);
  }

  lemma SomethingToDo(s: System)
    requires Inv(s) && NothingLost(s) && s.page.disposeRequested && !s.page.terminal
    ensures exists e :: Guaranteed(e) && Possible(s, e)
  {
    var p, u, l := s.page, s.utility, s.lifecycle;
    if p.toUtility != [] {
      assert Possible(s, DeliverToUtility);
    } else if p.toLifecycle != [] {
      assert Possible(s, DeliverToLifecycle(true));
    } else if u.toPage != [] {
      assert Possible(s, DeliverFromUtility);
    } else if l.toPage != [] {
      assert Possible(s, DeliverFromLifecycle);
    } else if u.phase.DestroyingLocally? {
      assert Possible(s, LocalDestroySettled);
    } else {
      assert Possible(s, DestroySettled(true));
    }
  }

  /** A terminal page has settled the disposal promise, and stays terminal. */
  lemma TerminalMeansSettled(token: Token, states: seq<System>, events: seq<Event>, i: nat)
    requires IsRun(token, states, events) && i < |states|
    ensures states[i].page.terminal <==> !states[i].page.disposal.Pending?
  {
    InvThroughout(token, states, events, i);
  }

  // ---------- the startup promise ----------

  /** Every failure captured before the end has rejected startup, and readiness has fulfilled it. */
  ghost predicate FailuresRejectStartup(p: Page) {
    (p.failure && !p.terminal ==> !p.startup.Pending?) && (p.ready ==> !p.startup.Pending?)
  }

  lemma UtilityFailuresRejectStartup(p: Page, message: FromUtility)
    requires FailuresRejectStartup(p)
    ensures FailuresRejectStartup(PageOnUtility(p, message))
  {
    if !p.terminal {
      WhatFailingDoes(p);
      WhatBeginningToFailDoes(p);
    }
    hide BeginFailureDisposal, FailImmediately;
  }

  lemma LifecycleFailuresRejectStartup(p: Page, message: FromLifecycle)
    requires FailuresRejectStartup(p)
    ensures FailuresRejectStartup(PageOnLifecycle(p, message))
  {
  }

  lemma OtherFailuresRejectStartup(p: Page)
    requires FailuresRejectStartup(p)
    ensures FailuresRejectStartup(PageInitialize(p)) && FailuresRejectStartup(PageDispose(p))
    ensures FailuresRejectStartup(PageOnUtilityBoundary(p)) && FailuresRejectStartup(FailImmediately(p))
  {
    if !p.terminal {
      WhatFailingDoes(p);
      WhatBeginningToFailDoes(p);
    }
    hide BeginFailureDisposal;
  }

  lemma PageAfterStep(s: System, e: Event)
    requires Possible(s, e)
    ensures e.CallInitialize? ==> Step(s, e).page == PageInitialize(s.page)
    ensures e.CallDispose? ==> Step(s, e).page == PageDispose(s.page)
    ensures e.UtilityBoundary? ==> Step(s, e).page == PageOnUtilityBoundary(s.page)
    ensures e.LifecycleBoundary? ==> Step(s, e).page == FailImmediately(s.page)
    ensures e.DeliverFromUtility? ==> Step(s, e).page == PageOnUtility(s.page, s.utility.toPage[0])
    ensures e.DeliverFromLifecycle? ==> Step(s, e).page == PageOnLifecycle(s.page, s.lifecycle.toPage[0])
    ensures !External(e) && !e.DeliverFromUtility? && !e.DeliverFromLifecycle? ==>
      var p, q := s.page, Step(s, e).page;
      q.terminal == p.terminal && q.failure == p.failure && q.ready == p.ready && q.startup == p.startup
      && q.disposeRequested == p.disposeRequested
  {
    hide UtilityOn, LifecycleOn, UtilityPrepared, LifecycleDestroySettled, UtilityGuestSettled, UtilityDestroySettled;
    hide PageInitialize, PageDispose, PageOnUtilityBoundary, FailImmediately, PageOnUtility, PageOnLifecycle;
  }

  lemma PageFailuresRejectStartup(s: System, e: Event)
    requires Possible(s, e) && FailuresRejectStartup(s.page)
    ensures FailuresRejectStartup(Step(s, e).page)
  {
    hide Step, PageOnUtility, PageOnLifecycle, PageInitialize, PageDispose, PageOnUtilityBoundary, FailImmediately;
    PageAfterStep(s, e);
    OtherFailuresRejectStartup(s.page);
    if e.DeliverFromUtility? { UtilityFailuresRejectStartup(s.page, s.utility.toPage[0]); }
    if e.DeliverFromLifecycle? { LifecycleFailuresRejectStartup(s.page, s.lifecycle.toPage[0]); }
  }

  lemma StartupUndecidedAtStart(token: Token)
    ensures FailuresRejectStartup(Start(token).page)
  {
  }

  lemma {:induction false} FailuresRejectStartupThroughout(
    token: Token, states: seq<System>, events: seq<Event>, i: nat)
    requires IsRun(token, states, events) && i < |states|
    ensures FailuresRejectStartup(states[i].page)
  {
    hide Step, FailuresRejectStartup;
    if i == 0 {
      StartupUndecidedAtStart(token);
    } else {
      FailuresRejectStartupThroughout(token, states, events, i - 1);
      PageFailuresRejectStartup(states[i - 1], events[i - 1]);
    }
  }

  /** The lifecycle worker reports that destroying failed while startup is still undecided. */
  predicate DestroyFailsDuringStartup(s: System, e: Event) {
    && e.DeliverFromLifecycle? && s.lifecycle.toPage != [] && s.lifecycle.toPage[0].DestroyFatal?
    && s.page.startup.Pending?
  }

  /** The step that ends the handshake settles startup as well, except exactly in that case. */
  lemma StartupSettlesExceptWhenDestroyFails(token: Token, states: seq<System>, events: seq<Event>, i: nat)
    requires IsRun(token, states, events) && i < |events|
    requires !states[i].page.terminal && states[i + 1].page.terminal
    ensures states[i + 1].page.startup.Pending? <==> DestroyFailsDuringStartup(states[i], events[i])
  {
    FailuresRejectStartupThroughout(token, states, events, i);
    EndingStep(states[i], events[i]);
  }

  lemma UtilityEnding(p: Page, message: FromUtility)
    requires FailuresRejectStartup(p) && !p.terminal && PageOnUtility(p, message).terminal
    ensures !PageOnUtility(p, message).startup.Pending?
  {
    WhatFailingDoes(p);
    WhatBeginningToFailDoes(p);
    hide BeginFailureDisposal, FailImmediately;
  }

  lemma LifecycleEnding(p: Page, message: FromLifecycle)
    requires FailuresRejectStartup(p) && !p.terminal && PageOnLifecycle(p, message).terminal
    ensures PageOnLifecycle(p, message).startup.Pending? <==> message.DestroyFatal? && p.startup.Pending?
  {
    WhatFailingDoes(p);
    WhatBeginningToFailDoes(p);
    hide BeginFailureDisposal, FailImmediately;
  }

  lemma OtherEnding(p: Page)
    requires FailuresRejectStartup(p) && !p.terminal
    ensures !PageInitialize(p).terminal && (PageDispose(p).terminal ==> !PageDispose(p).startup.Pending?)
    ensures !PageOnUtilityBoundary(p).startup.Pending? && !FailImmediately(p).startup.Pending?
  {
    WhatFailingDoes(p);
    WhatBeginningToFailDoes(p);
    hide BeginFailureDisposal, FailImmediately;
  }

  lemma EndingStep(s: System, e: Event)
    requires FailuresRejectStartup(s.page) && Possible(s, e)
    requires !s.page.terminal && Step(s, e).page.terminal
    ensures Step(s, e).page.startup.Pending? <==> DestroyFailsDuringStartup(s, e)
  {
    hide Step, PageInitialize, PageDispose, PageOnUtilityBoundary, FailImmediately, PageOnUtility, PageOnLifecycle;
    hide FailuresRejectStartup;
    PageAfterStep(s, e);
    OtherEnding(s.page);
    if e.DeliverFromUtility? { UtilityEnding(s.page, s.utility.toPage[0]); }
    if e.DeliverFromLifecycle? { LifecycleEnding(s.page, s.lifecycle.toPage[0]); }
  }

  /** Disposal during startup, before the Animal's destroyer was adopted. */
  lemma DisposedDuringStartup(token: Token) returns (states: seq<System>, events: seq<Event>)
    ensures IsRun(token, states, events) && |events| == 6
    ensures var end := states[6];
      && end.page == NewPage(token).(
           initialized := true, destroyerReceived := true, disposeRequested := true, toLifecycle := [])
      && end.lifecycle == NewLifecycle().(adoptHandled := true, restored := true, toPage := [Adopted])
  {
    var s0 := Start(token);
    var s1 := Step(s0, CallInitialize);
    var s2 := Step(s1, DeliverToUtility);
    var s3 := Step(s2, Prepared(Constructed));
    var s4 := Step(s3, DeliverFromUtility);
    var s5 := Step(s4, CallDispose);
    var s6 := Step(s5, DeliverToLifecycle(true));
    states := [s0, s1, s2, s3, s4, s5, s6];
    events := [CallInitialize, DeliverToUtility, Prepared(Constructed), DeliverFromUtility, CallDispose,
               DeliverToLifecycle(true)];
    hide Step, Possible;
  }

  /** It does happen: disposal during startup, then a destroyer that fails, leaves the startup promise open for good. */
  lemma StartupCanStayOpen(token: Token) returns (states: seq<System>, events: seq<Event>)
    ensures IsRun(token, states, events)
    ensures var end := states[|events|].page;
      end.terminal && end.initialized && end.startup.Pending? && end.disposal.Rejected?
  {
    var firstStates, firstEvents := DisposedDuringStartup(token);
    var s6 := firstStates[6];
    var s7 := Step(s6, DeliverFromLifecycle);
    var s8 := Step(s7, DeliverToLifecycle(true));
    assert s8.lifecycle.waiting == [token];
    AnswersOne(Failed, token);
    var s9 := Step(s8, DestroySettled(false));
    assert s9.lifecycle.toPage == [DestroyFatal(token)];
    var s10 := Step(s9, DeliverFromLifecycle);
    states := firstStates + [s7, s8, s9, s10];
    events := firstEvents
              + [DeliverFromLifecycle, DeliverToLifecycle(true), DestroySettled(false), DeliverFromLifecycle];
    hide Step, Possible;
  }
}
