/** One owner of the Animal at any time, in every interleaving of the handshake. */
module HandshakeSafety {
  import opened Basics
  import opened Handshake

  // ---------- queues that hold each message at most once ----------

  ghost predicate Distinct<T>(q: seq<T>) {
    forall i, j | 0 <= i < j < |q| :: q[i] != q[j]
  }

  lemma Popped<T>(q: seq<T>)
    requires Distinct(q) && q != []
    ensures Distinct(q[1..]) && q[0] !in q[1..]
    ensures forall x :: x in q <==> x == q[0] || x in q[1..]
  {
    assert q == [q[0]] + q[1..];
  }

  // ---------- the invariant, one concern at a time ----------

  ghost predicate QueuesDistinct(s: System) {
    Distinct(s.page.toUtility) && Distinct(s.page.toLifecycle)
    && Distinct(s.utility.toPage) && Distinct(s.lifecycle.toPage)
  }

  ghost predicate InitializeOnce(s: System) {
    var p, u := s.page, s.utility;
    && (p.initialized <==> u.initialized || Initialize in p.toUtility)
    && (Initialize in p.toUtility ==> !u.initialized && p.toUtility[0] == Initialize)
    && (u.phase.Idle? <==> !u.initialized)
    && (!u.initialized ==> !u.handlerTerminal && !u.cancelled && !u.animalCreated)
  }

  ghost predicate CancelOnce(s: System) {
    var p, u := s.page, s.utility;
    && (CancelBeforeDestroyer in p.toUtility ==> p.cancellationRequested && p.initialized)
    && (CancelledBeforeDestroyer in u.toPage ==> u.cancelled)
    && (p.cancellationRequested ==> p.disposeRequested && p.initialized)
    && (u.cancelled ==> !u.animalCreated && p.cancellationRequested)
  }

  ghost predicate PublishedOnce(s: System) {
    var p, u := s.page, s.utility;
    && (u.published ==> u.animalCreated)
    && (u.animalCreated ==> !u.phase.Idle? && !u.phase.Preparing?)
    && (Destroyer in u.toPage ==> u.published && !p.destroyerReceived)
    && (p.destroyerReceived ==> u.published)
  }

  ghost predicate AdoptedOnce(s: System) {
    var p, l := s.page, s.lifecycle;
    && (p.destroyerReceived <==> l.adoptHandled || Adopt in p.toLifecycle)
    && (Adopt in p.toLifecycle ==> !l.adoptHandled)
    && (l.restored ==> l.adoptHandled)
    && (Adopted in l.toPage ==> l.restored && !p.adopted)
    && (AdoptFatal in l.toPage ==> l.adoptHandled && !l.restored && !p.adoptionFailure)
    && (p.adopted ==> l.restored)
    && (p.adoptionFailure ==> l.adoptHandled && !l.restored)
  }

  ghost predicate HandedOverOnce(s: System) {
    var p, u := s.page, s.utility;
    && (DestroyerAdopted in p.toUtility ==> p.adopted && u.adoption.Pending?)
    && (AdoptionFailed in p.toUtility ==> p.adoptionFailure && u.adoption.Pending?)
    && (u.adoption.Fulfilled? ==> p.adopted)
    && (u.adoption.Rejected? ==> p.adoptionFailure)
    && (u.adopted <==> u.adoption.Fulfilled?)
    && (u.lifecycleOwnsDestroyer <==> u.adopted)
    && (u.guestStarted <==> u.adopted)
    && (u.phase.AwaitingAdoption? <==> u.published && u.adoption.Pending?)
    && (u.phase.StartingGuest? ==> u.adopted)
    && (u.handlerTerminal ==> u.phase.Over?)
  }

  ghost predicate ReadyOnce(s: System) {
    var p, u := s.page, s.utility;
    && ControlFatal !in u.toPage
    && (Ready in u.toPage || p.ready ==> u.guestStarted && u.phase.Over?)
    && (Ready in u.toPage ==> !p.ready)
    && (p.ready ==> p.adopted)
    && (p.startup.Fulfilled? ==> p.ready)
    && (UtilityFatal in u.toPage ==> u.phase.Over? && u.handlerTerminal)
  }

  ghost predicate DestroyedOnce(s: System) {
    var p, l := s.page, s.lifecycle;
    && (p.destroyToken.Some? ==> p.adopted && p.disposeRequested && p.destroyToken == Some(p.nextToken))
    && (p.destroyToken.Some? <==> !l.outcome.NotRequested? || Destroy(p.nextToken) in p.toLifecycle)
    && (forall t | Destroy(t) in p.toLifecycle :: t == p.nextToken && l.outcome.NotRequested?)
    && (l.outcome.InFlight? ==> l.waiting == [p.nextToken])
    && (!l.outcome.InFlight? ==> l.waiting == [])
    && (forall t | Destroyed(t) in l.toPage :: t == p.nextToken && l.outcome.Succeeded?)
    && (forall t | DestroyFatal(t) in l.toPage :: t == p.nextToken && l.outcome.Failed?)
  }

  ghost predicate CallsCounted(s: System) {
    var u, l := s.utility, s.lifecycle;
    && u.destroyCalls == (if u.animalCreated && (!u.published || u.adoption.Rejected?) then 1 else 0)
    && l.destroyCalls == (if l.outcome.NotRequested? then 0 else 1)
    && (u.phase.DestroyingLocally? ==> u.destroyCalls == 1)
    && (u.phase.Over? ==> u.adopted || u.destroyCalls == 1 || !u.animalCreated)
  }

  ghost predicate DisposalMeansSomething(s: System) {
    var p, u, l := s.page, s.utility, s.lifecycle;
    && (p.disposal.Fulfilled? ==>
          !p.initialized || u.destroyCalls == 1 || l.destroyCalls == 1
          || (!u.animalCreated && (u.cancelled || u.phase.Over?)))
    && (p.terminal <==> !p.disposal.Pending?)
    && p.fatalReports <= 1
    && (p.fatalReports == 1 ==> p.failure && p.ready)
    && (p.disposeRequested && !p.initialized ==> p.terminal)
  }

  ghost predicate Inv(s: System) {
    QueuesDistinct(s) && InitializeOnce(s) && CancelOnce(s) && PublishedOnce(s) && AdoptedOnce(s)
    && HandedOverOnce(s) && ReadyOnce(s) && DestroyedOnce(s) && CallsCounted(s) && DisposalMeansSomething(s)
  }

  lemma InvAtStart(token: Token)
    ensures Inv(Start(token))
  {
  }

  // ---------- what a failure changes ----------

  predicate SameProgress(p: Page, q: Page) {
    && q.nextToken == p.nextToken && q.initialized == p.initialized && q.destroyerReceived == p.destroyerReceived
    && q.adopted == p.adopted && q.ready == p.ready && q.cancellationRequested == p.cancellationRequested
    && q.adoptionFailure == p.adoptionFailure && q.toUtility == p.toUtility
  }

  function ReportsAfterFailure(p: Page): nat {
    p.fatalReports + if !p.failure && p.ready && !p.disposeRequested && p.fatalReports == 0 then 1 else 0
  }

  lemma WhatFailingDoes(p: Page)
    requires !p.terminal
    ensures var q := FailImmediately(p);
      && SameProgress(p, q) && q.destroyToken == p.destroyToken && q.toLifecycle == p.toLifecycle && q.terminal
      && q.failure
      && q.startup == p.startup.Reject() && q.disposal == p.disposal.Reject()
      && q.disposeRequested == p.disposeRequested
      && q.fatalReports == ReportsAfterFailure(p)
  {
  }

  lemma WhatBeginningToFailDoes(p: Page)
    requires !p.terminal
    ensures var q := BeginFailureDisposal(p);
      && SameProgress(p, q) && q.failure && q.disposeRequested && q.startup == p.startup.Reject()
      && q.fatalReports == ReportsAfterFailure(p)
      && if !p.destroyerReceived then
           && q.terminal && q.disposal == p.disposal.Reject() && q.destroyToken == p.destroyToken
           && q.toLifecycle == p.toLifecycle
         else
           && !q.terminal && q.disposal == p.disposal
           && if p.adopted && p.destroyToken.None?
              then q.destroyToken == Some(p.nextToken) && q.toLifecycle == p.toLifecycle + [Destroy(p.nextToken)]
              else q.destroyToken == p.destroyToken && q.toLifecycle == p.toLifecycle
  {
  }

  // ---------- every step keeps it ----------

  lemma InvCalls(s: System, e: Event)
    requires Inv(s) && (e.CallInitialize? || e.CallDispose?)
    ensures Inv(Step(s, e))
  {
  }

  lemma InvUtilityBoundary(s: System)
    requires Inv(s)
    ensures Inv(Step(s, UtilityBoundary))
  {
    if !s.page.terminal {
      WhatBeginningToFailDoes(s.page);
      WhatFailingDoes(s.page);
    }
    hide BeginFailureDisposal, FailImmediately, ReportsAfterFailure;
    ReportsOnce(s);
  }

  lemma InvLifecycleBoundary(s: System)
    requires Inv(s)
    ensures Inv(Step(s, LifecycleBoundary))
  {
    if !s.page.terminal { WhatFailingDoes(s.page); } else { TerminalStays(s.page); }
    hide FailImmediately, ReportsAfterFailure;
    ReportsOnce(s);
  }

  lemma TerminalStays(p: Page)
    requires p.terminal
    ensures FailImmediately(p) == p
  {
  }

  lemma ReportsOnce(s: System)
    requires Inv(s)
    ensures ReportsAfterFailure(s.page) <= 1 && (ReportsAfterFailure(s.page) == 1 ==> s.page.ready)
  {
  }

  lemma InvBoundaries(s: System, e: Event)
    requires Inv(s) && (e.UtilityBoundary? || e.LifecycleBoundary?)
    ensures Inv(Step(s, e))
  {
    if e.UtilityBoundary? { InvUtilityBoundary(s); } else { InvLifecycleBoundary(s); }
  }

  lemma InvDeliverToUtility(s: System)
    requires Inv(s) && s.page.toUtility != []
    ensures Inv(Step(s, DeliverToUtility))
  {
    Popped(s.page.toUtility);
    if s.page.toUtility[0].AdoptionFailed? { InvAdoptionFails(s); }
    else if s.page.toUtility[0].DestroyerAdopted? { InvHandedOver(s); }
  }

  lemma InvAdoptionFails(s: System)
    requires Inv(s) && s.page.toUtility != [] && s.page.toUtility[0].AdoptionFailed?
    ensures Inv(Step(s, DeliverToUtility))
  {
    Popped(s.page.toUtility);
  }

  lemma InvHandedOver(s: System)
    requires Inv(s) && s.page.toUtility != [] && s.page.toUtility[0].DestroyerAdopted?
    ensures Inv(Step(s, DeliverToUtility))
  {
    Popped(s.page.toUtility);
  }

  lemma InvDeliverToLifecycle(s: System, ok: bool)
    requires Inv(s) && s.page.toLifecycle != []
    ensures Inv(Step(s, DeliverToLifecycle(ok)))
  {
    Popped(s.page.toLifecycle);
  }

  lemma InvUtilityFatal(s: System)
    requires Inv(s) && s.utility.toPage != [] && s.utility.toPage[0].UtilityFatal?
    ensures Inv(Step(s, DeliverFromUtility))
  {
    Popped(s.utility.toPage);
    if !s.page.terminal { WhatBeginningToFailDoes(s.page); }
    hide BeginFailureDisposal, ReportsAfterFailure;
    ReportsOnce(s);
  }

  lemma InvDestroyer(s: System)
    requires Inv(s) && s.utility.toPage != [] && s.utility.toPage[0].Destroyer?
    ensures Inv(Step(s, DeliverFromUtility))
  {
    Popped(s.utility.toPage);
  }

  lemma InvReadyOrCancelled(s: System)
    requires Inv(s) && s.utility.toPage != []
    requires (s.utility.toPage[0].Ready? || s.utility.toPage[0].CancelledBeforeDestroyer?)
    ensures Inv(Step(s, DeliverFromUtility))
  {
    Popped(s.utility.toPage);
  }

  lemma InvAdoption(s: System)
    requires Inv(s) && s.lifecycle.toPage != [] && (s.lifecycle.toPage[0].Adopted? || s.lifecycle.toPage[0].AdoptFatal?)
    ensures Inv(Step(s, DeliverFromLifecycle))
  {
    Popped(s.lifecycle.toPage);
  }

  lemma InvDestruction(s: System)
    requires Inv(s) && s.lifecycle.toPage != []
    requires s.lifecycle.toPage[0].Destroyed? || s.lifecycle.toPage[0].DestroyFatal?
    ensures Inv(Step(s, DeliverFromLifecycle))
  {
    Popped(s.lifecycle.toPage);
  }

  lemma InvUtilitySettles(s: System, e: Event)
    requires Inv(s) && Possible(s, e) && (e.Prepared? || e.GuestSettled? || e.LocalDestroySettled?)
    ensures Inv(Step(s, e))
  {
  }

  lemma AnswersOne(outcome: DestroyOutcome, token: Token)
    ensures Answers(outcome, [token]) == [Answer(outcome, token)]
  {
    assert Answers(outcome, [token][1..]) == [];
  }

  lemma InvDestroySettles(s: System, ok: bool)
    requires Inv(s) && s.lifecycle.outcome.InFlight?
    ensures Inv(Step(s, DestroySettled(ok)))
  {
    AnswersOne(if ok then Succeeded else Failed, s.page.nextToken);
  }

  lemma InvStep(s: System, e: Event)
    requires Inv(s) && Possible(s, e)
    ensures Inv(Step(s, e))
  {
    hide Inv, Step;
    match e {
      case CallInitialize => InvCalls(s, e);
      case CallDispose => InvCalls(s, e);
      case UtilityBoundary => InvBoundaries(s, e);
      case LifecycleBoundary => InvBoundaries(s, e);
      case DeliverToUtility => InvDeliverToUtility(s);
      case DeliverToLifecycle(ok) => InvDeliverToLifecycle(s, ok);
      case DeliverFromUtility =>
        NoControlFatal(s);
        match s.utility.toPage[0] {
          case UtilityFatal => InvUtilityFatal(s);
          case Destroyer => InvDestroyer(s);
          case _ => InvReadyOrCancelled(s);
        }
      case DeliverFromLifecycle =>
        match s.lifecycle.toPage[0] {
          case Adopted => InvAdoption(s);
          case AdoptFatal => InvAdoption(s);
          case _ => InvDestruction(s);
        }
      case DestroySettled(ok) => InvDestroySettles(s, ok);
      case _ => InvUtilitySettles(s, e);
    }
  }

  lemma NoControlFatal(s: System)
    requires Inv(s)
    ensures ControlFatal !in s.utility.toPage
  {
  }

  lemma {:induction false} InvThroughout(token: Token, states: seq<System>, events: seq<Event>, i: nat)
    requires IsRun(token, states, events) && i < |states|
    ensures Inv(states[i])
  {
    if i == 0 {
      InvAtStart(token);
    } else {
      InvThroughout(token, states, events, i - 1);
      InvStep(states[i - 1], events[i - 1]);
    }
  }

  // ---------- what that means ----------

  /** The Animal is destroyed at most once by anyone, and its guest starts only under the lifecycle worker's watch. */
  lemma SingleOwner(token: Token, states: seq<System>, events: seq<Event>, i: nat)
    requires IsRun(token, states, events) && i < |states|
    ensures var p, u, l := states[i].page, states[i].utility, states[i].lifecycle;
      && u.destroyCalls + l.destroyCalls <= 1
      && (l.destroyCalls == 1 ==> l.restored && p.destroyToken == Some(token))
      && (u.guestStarted ==> l.restored && u.destroyCalls == 0)
      && (p.startup.Fulfilled? ==> p.adopted && l.restored && u.guestStarted)
      && ControlFatal !in u.toPage
      && p.fatalReports <= 1
  {
    InvThroughout(token, states, events, i);
    RunKeeps(token, states, events, 0, i);
  }

  // ---------- what the page never takes back ----------

  ghost predicate Keeps(p: Page, q: Page) {
    && q.nextToken == p.nextToken
    && (p.destroyToken.Some? ==> q.destroyToken == p.destroyToken)
    && (!p.disposal.Pending? ==> q.disposal == p.disposal)
    && (!p.startup.Pending? ==> q.startup == p.startup)
    && (q.destroyToken == p.destroyToken ==> forall t | Destroy(t) in q.toLifecycle :: Destroy(t) in p.toLifecycle)
  }

  lemma KeepsFurther(p: Page, q: Page, r: Page)
    requires Keeps(p, q) && Keeps(q, r)
    ensures Keeps(p, r)
  {
  }

  lemma RequestKeeps(p: Page)
    ensures Keeps(p, RequestDestroy(p)) && Keeps(p, CancelBefore(p)) && Keeps(p, CompleteDisposal(p))
  {
  }

  lemma FailingKeeps(p: Page)
    ensures Keeps(p, FailImmediately(p))
  {
  }

  lemma BeginningToFailKeeps(p: Page)
    ensures Keeps(p, BeginFailureDisposal(p))
  {
    var f := CaptureFailure(p);
    var g := f.(startup := f.startup.Reject(), disposeRequested := true);
    assert Keeps(p, g);
    RequestKeeps(g);
    FailingKeeps(g);
    hide Keeps, RequestDestroy, FailImmediately, CompleteDisposal, CancelBefore;
    KeepsFurther(p, g, BeginFailureDisposal(p));
  }

  lemma UtilityMessagesKeep(p: Page, message: FromUtility)
    ensures Keeps(p, PageOnUtility(p, message))
  {
    RequestKeeps(p);
    FailingKeeps(p);
    BeginningToFailKeeps(p);
    hide CompleteDisposal, FailImmediately, BeginFailureDisposal, RequestDestroy, CancelBefore;
  }

  /** Changes that touch neither the destroy token, nor the lifecycle queue, nor a settled promise. */
  lemma SmallChangesKeep(p: Page, more: seq<ToUtility>)
    ensures Keeps(p, p) && Keeps(p, p.(failure := true)) && Keeps(p, p.(adopted := true))
    ensures Keeps(p, p.(disposeRequested := true)) && Keeps(p, p.(adopted := true, toUtility := more))
    ensures Keeps(p, p.(adoptionFailure := true, startup := p.startup.Reject(), toUtility := more))
    ensures Keeps(p, p.(initialized := true, toUtility := more))
  {
  }

  lemma LifecycleMessagesKeep(p: Page, message: FromLifecycle)
    ensures Keeps(p, PageOnLifecycle(p, message))
  {
    hide Keeps, CompleteDisposal, FailImmediately, BeginFailureDisposal, RequestDestroy, CancelBefore;
    FailingKeeps(p);
    BeginningToFailKeeps(p);
    RequestKeeps(p);
    SmallChangesKeep(p, p.toUtility + [DestroyerAdopted]);
    SmallChangesKeep(p, p.toUtility + [AdoptionFailed]);
    var adopted, failed := p.(adopted := true), p.(failure := true);
    RequestKeeps(adopted);
    RequestKeeps(failed);
    KeepsFurther(p, adopted, RequestDestroy(adopted));
    KeepsFurther(p, failed, CompleteDisposal(failed));
  }

  lemma CallsAndBoundariesKeep(p: Page)
    ensures Keeps(p, PageInitialize(p)) && Keeps(p, PageDispose(p))
    ensures Keeps(p, PageOnUtilityBoundary(p)) && Keeps(p, FailImmediately(p))
  {
    hide Keeps, CompleteDisposal, FailImmediately, BeginFailureDisposal, RequestDestroy, CancelBefore;
    FailingKeeps(p);
    BeginningToFailKeeps(p);
    SmallChangesKeep(p, p.toUtility + [Initialize]);
    var d := p.(disposeRequested := true);
    RequestKeeps(d);
    KeepsFurther(p, d, RequestDestroy(d));
    KeepsFurther(p, d, CancelBefore(d));
    KeepsFurther(p, d, CompleteDisposal(d));
  }

  lemma StepKeeps(s: System, e: Event)
    requires Possible(s, e)
    ensures Keeps(s.page, Step(s, e).page)
  {
    hide PageOnUtility, PageOnLifecycle, PageInitialize, PageDispose, PageOnUtilityBoundary, FailImmediately;
    hide UtilityOn, LifecycleOn, UtilityPrepared, LifecycleDestroySettled;
    CallsAndBoundariesKeep(s.page);
    if e.DeliverFromUtility? { UtilityMessagesKeep(s.page, s.utility.toPage[0]); }
    if e.DeliverFromLifecycle? { LifecycleMessagesKeep(s.page, s.lifecycle.toPage[0]); }
  }

  lemma {:induction false} RunKeeps(token: Token, states: seq<System>, events: seq<Event>, i: nat, j: nat)
    requires IsRun(token, states, events) && i <= j < |states|
    ensures states[j].page.nextToken == states[i].page.nextToken
    ensures states[i].page.destroyToken.Some? ==> states[j].page.destroyToken == states[i].page.destroyToken
    ensures !states[i].page.disposal.Pending? ==> states[j].page.disposal == states[i].page.disposal
    ensures !states[i].page.startup.Pending? ==> states[j].page.startup == states[i].page.startup
    decreases j
  {
    hide Step, Possible;
    if i < j {
      RunKeeps(token, states, events, i, j - 1);
      StepKeeps(states[j - 1], events[j - 1]);
    }
  }

  /** The step posts a destroy request that was not on its way before. */
  ghost predicate SendsToken(s: System, e: Event)
    requires Possible(s, e)
  {
    exists t :: Destroy(t) in Step(s, e).page.toLifecycle && Destroy(t) !in s.page.toLifecycle
  }

  lemma SendingSetsToken(s: System, e: Event)
    requires Possible(s, e) && SendsToken(s, e)
    ensures s.page.destroyToken.None? && Step(s, e).page.destroyToken.Some?
  {
    hide Step, Possible;
    StepKeeps(s, e);
  }

  /** A destroy request is sent only after adoption, and so after the Animal was restored. */
  lemma TokenOnlyAfterAdoption(token: Token, states: seq<System>, events: seq<Event>, i: nat)
    requires IsRun(token, states, events) && i < |events|
    requires SendsToken(states[i], events[i])
    ensures states[i + 1].page.adopted && states[i + 1].lifecycle.restored
  {
    hide Step, Possible, SendsToken;
    SendingSetsToken(states[i], events[i]);
    InvThroughout(token, states, events, i + 1);
  }

  /** And it is sent once at most. */
  lemma OneToken(token: Token, states: seq<System>, events: seq<Event>, i: nat, j: nat)
    requires IsRun(token, states, events) && i < j < |events|
    requires SendsToken(states[i], events[i])
    ensures !SendsToken(states[j], events[j])
  {
    hide Step, Possible, SendsToken;
    SendingSetsToken(states[i], events[i]);
    RunKeeps(token, states, events, i + 1, j);
    if SendsToken(states[j], events[j]) { SendingSetsToken(states[j], events[j]); }
  }

  /**
   * A kept disposal promise means: no Animal was ever created and none ever will be, or its destruction was called for.
   */
  lemma KeptDisposalMeansDestroyed(
    token: Token, states: seq<System>, events: seq<Event>, i: nat, j: nat)
    requires IsRun(token, states, events) && i <= j < |states|
    requires states[i].page.disposal.Fulfilled?
    ensures states[j].utility.animalCreated ==> states[j].utility.destroyCalls + states[j].lifecycle.destroyCalls == 1
  {
    hide Step, Possible;
    InvThroughout(token, states, events, j);
    RunKeeps(token, states, events, i, j);
  }
}
