/** The three state machines as objects that update their flags message by message. */
module HandshakeMachines {
  import opened Basics
  import opened Handshake

  class RuntimeHandshake {
    const nextToken: Token
    var initialized: bool
    var destroyerReceived: bool
    var adopted: bool
    var ready: bool
    var disposeRequested: bool
    var cancellationRequested: bool
    var destroyToken: Option<Token>
    var terminal: bool
    var failure: bool
    var fatalReports: nat
    var adoptionFailure: bool
    var startup: Promise
    var disposal: Promise
    var toUtility: seq<ToUtility>
    var toLifecycle: seq<ToLifecycle>

    ghost function State(): Page
      reads this
    {
      Page(nextToken, initialized, destroyerReceived, adopted, ready, disposeRequested, cancellationRequested,
           destroyToken, terminal, failure, fatalReports, adoptionFailure, startup, disposal, toUtility, toLifecycle)
    }

    constructor (token: Token)
      ensures State() == NewPage(token)
    {
      nextToken := token;
      initialized, destroyerReceived, adopted, ready := false, false, false, false;
      disposeRequested, cancellationRequested, destroyToken := false, false, None;
      terminal, failure, fatalReports, adoptionFailure := false, false, 0, false;
      startup, disposal, toUtility, toLifecycle := Pending, Pending, [], [];
    }

    method Complete()
      modifies this
      ensures State() == CompleteDisposal(old(State()))
    {
      terminal := true;
      if failure {
        disposal := disposal.Reject();
      } else {
        if !ready { startup := startup.Reject(); }
        disposal := disposal.Resolve();
      }
    }

    method Capture()
      modifies this
      ensures State() == CaptureFailure(old(State()))
    {
      var firstFailure := !failure;
      failure := true;
      if firstFailure && ready && !disposeRequested && fatalReports == 0 {
        fatalReports := fatalReports + 1;
      }
    }

    method Fail()
      modifies this
      ensures State() == FailImmediately(old(State()))
    {
      if terminal { return; }
      Capture();
      startup := startup.Reject();
      terminal := true;
      disposal := disposal.Reject();
    }

    method PostDestroy()
      modifies this
      ensures State() == RequestDestroy(old(State()))
    {
      if !disposeRequested || !adopted || destroyToken.Some? || terminal { return; }
      destroyToken := Some(nextToken);
      toLifecycle := toLifecycle + [Destroy(nextToken)];
    }

    method PostCancel()
      modifies this
      ensures State() == CancelBefore(old(State()))
    {
      if !disposeRequested || destroyerReceived || cancellationRequested || terminal { return; }
      cancellationRequested := true;
      toUtility := toUtility + [CancelBeforeDestroyer];
    }

    method BeginFailure()
      modifies this
      ensures State() == BeginFailureDisposal(old(State()))
    {
      Capture();
      startup := startup.Reject();
      disposeRequested := true;
      if !destroyerReceived {
        Fail();
      } else {
        PostDestroy();
      }
    }

    method OnUtilityFatal()
      modifies this
      ensures State() == PageOnUtility(old(State()), UtilityFatal)
    {
      hide BeginFailureDisposal;
      if terminal { return; }
      if adoptionFailure {
        failure, terminal := true, true;
        startup, disposal := startup.Reject(), disposal.Reject();
      } else if disposeRequested && !failure {
        startup := startup.Reject();
        if adopted { return; }
        terminal := true;
        disposal := disposal.Resolve();
      } else {
        BeginFailure();
      }
    }

    method OnUtilityMessage(message: FromUtility)
      modifies this
      ensures State() == PageOnUtility(old(State()), message)
    {
      hide BeginFailureDisposal, FailImmediately, CompleteDisposal, RequestDestroy, CaptureFailure;
      if terminal { return; }
      match message
      case ControlFatal =>
        BeginFailure();
      case CancelledBeforeDestroyer =>
        if !disposeRequested || destroyerReceived { Fail(); } else { Complete(); }
      case UtilityFatal =>
        OnUtilityFatal();
      case Destroyer =>
        if destroyerReceived {
          BeginFailure();
        } else {
          destroyerReceived := true;
          toLifecycle := toLifecycle + [Adopt];
        }
      case Ready =>
        if disposeRequested { return; }
        if !adopted || ready {
          BeginFailure();
        } else {
          ready := true;
          startup := startup.Resolve();
        }
    }

    method OnLifecycleMessage(message: FromLifecycle)
      modifies this
      ensures State() == PageOnLifecycle(old(State()), message)
    {
      hide BeginFailureDisposal, FailImmediately, CompleteDisposal, RequestDestroy, CaptureFailure;
      if terminal { return; }
      match message
      case Adopted =>
        if !destroyerReceived || adopted { Fail(); return; }
        adopted := true;
        if disposeRequested {
          PostDestroy();
        } else {
          toUtility := toUtility + [DestroyerAdopted];
        }
      case AdoptFatal =>
        if ready { BeginFailure(); return; }
        adoptionFailure := true;
        startup := startup.Reject();
        toUtility := toUtility + [AdoptionFailed];
      case Destroyed(token) =>
        if Some(token) == destroyToken { Complete(); }
      case DestroyFatal(token) =>
        if Some(token) == destroyToken {
          failure := true;
          Complete();
        }
    }

    method OnUtilityBoundary()
      modifies this
      ensures State() == PageOnUtilityBoundary(old(State()))
    {
      if terminal { return; }
      if adoptionFailure { Fail(); } else { BeginFailure(); }
    }

    method OnLifecycleBoundary()
      modifies this
      ensures State() == FailImmediately(old(State()))
    {
      Fail();
    }

    /** Refused once called before, disposed or terminal. */
    method Begin() returns (accepted: bool)
      modifies this
      ensures State() == PageInitialize(old(State()))
      ensures accepted <==> !old(initialized) && State().initialized
    {
      if initialized || terminal || disposeRequested { return false; }
      initialized := true;
      toUtility := toUtility + [Initialize];
      accepted := true;
    }

    method Dispose()
      modifies this
      ensures State() == PageDispose(old(State()))
    {
      hide CompleteDisposal, RequestDestroy, CancelBefore;
      if terminal || disposeRequested { return; }
      disposeRequested := true;
      if !initialized {
        Complete();
      } else if destroyerReceived {
        PostDestroy();
      } else {
        PostCancel();
      }
    }
  }

  class UtilityMachine {
    var handlerTerminal: bool
    var phase: Phase
    var initialized: bool
    var adopted: bool
    var lifecycleOwnsDestroyer: bool
    var animalCreated: bool
    var cancelled: bool
    var adoption: Promise
    var published: bool
    var guestStarted: bool
    var destroyCalls: nat
    var toPage: seq<FromUtility>

    ghost function State(): Utility
      reads this
    {
      Utility(handlerTerminal, phase, initialized, adopted, lifecycleOwnsDestroyer, animalCreated, cancelled, adoption,
              published, guestStarted, destroyCalls, toPage)
    }

    constructor ()
      ensures State() == NewUtility()
    {
      handlerTerminal, phase, initialized, adopted := false, Idle, false, false;
      lifecycleOwnsDestroyer, animalCreated, cancelled, adoption := false, false, false, Pending;
      published, guestStarted, destroyCalls, toPage := false, false, 0, [];
    }

    method Report()
      modifies this
      ensures State() == PostFatal(old(State()))
    {
      phase, handlerTerminal := Over, true;
      toPage := toPage + [UtilityFatal];
    }

    method CatchStartup()
      modifies this
      ensures State() == FailStartup(old(State()))
    {
      if animalCreated && !lifecycleOwnsDestroyer {
        phase := DestroyingLocally;
        destroyCalls := destroyCalls + 1;
      } else {
        Report();
      }
    }

    method Refuse(message: ToUtility)
      modifies this
      ensures State() == ProtocolError(old(State()), message)
    {
      if !handlerTerminal {
        handlerTerminal := true;
        toPage := toPage + [ControlFatal];
      }
    }

    method Handle(message: ToUtility)
      modifies this
      ensures State() == UtilityOn(old(State()), message)
    {
      if handlerTerminal && !message.AdoptionFailed? { return; }
      if message.Initialize? {
        if initialized { Refuse(message); return; }
        initialized, phase := true, Preparing;
        return;
      }
      if !initialized { Refuse(message); return; }
      if message.CancelBeforeDestroyer? {
        if !animalCreated && !cancelled {
          cancelled := true;
          toPage := toPage + [CancelledBeforeDestroyer];
        }
        return;
      }
      if adopted { Refuse(message); return; }
      if message.AdoptionFailed? {
        adoption := adoption.Reject();
        if adoption.Rejected? && phase.AwaitingAdoption? { CatchStartup(); }
        return;
      }
      adopted, lifecycleOwnsDestroyer := true, true;
      adoption := adoption.Resolve();
      if adoption.Fulfilled? && phase.AwaitingAdoption? {
        phase, guestStarted := StartingGuest, true;
      }
    }

    method Prepared(outcome: Construction)
      modifies this
      ensures State() == UtilityPrepared(old(State()), outcome)
    {
      if !phase.Preparing? { return; }
      if outcome.PrepareFails? || cancelled || outcome.ConstructorThrows? { CatchStartup(); return; }
      animalCreated := true;
      if outcome.PublicationThrows? { CatchStartup(); return; }
      published, phase := true, AwaitingAdoption;
      toPage := toPage + [Destroyer];
    }

    method GuestSettled(ok: bool)
      modifies this
      ensures State() == UtilityGuestSettled(old(State()), ok)
    {
      if !phase.StartingGuest? { return; }
      if ok {
        phase := Over;
        toPage := toPage + [Ready];
      } else {
        CatchStartup();
      }
    }

    method DestroySettled()
      modifies this
      ensures State() == UtilityDestroySettled(old(State()))
    {
      if phase.DestroyingLocally? { Report(); }
    }
  }

  class LifecycleMachine {
    var adoptHandled: bool
    var restored: bool
    var outcome: DestroyOutcome
    var destroyCalls: nat
    var waiting: seq<Token>
    var toPage: seq<FromLifecycle>

    ghost function State(): Lifecycle
      reads this
    {
      Lifecycle(adoptHandled, restored, outcome, destroyCalls, waiting, toPage)
    }

    constructor ()
      ensures State() == NewLifecycle()
    {
      adoptHandled, restored, outcome, destroyCalls, waiting, toPage := false, false, NotRequested, 0, [], [];
    }

    method Handle(message: ToLifecycle, restoreOk: bool)
      modifies this
      ensures State() == LifecycleOn(old(State()), message, restoreOk)
    {
      match message
      case Adopt =>
        adoptHandled := true;
        if restored || !restoreOk {
          toPage := toPage + [AdoptFatal];
        } else {
          restored := true;
          toPage := toPage + [Adopted];
        }
      case Destroy(token) =>
        if !restored {
          toPage := toPage + [DestroyFatal(token)];
          return;
        }
        if outcome.NotRequested? {
          outcome, destroyCalls := InFlight, destroyCalls + 1;
        }
        if outcome.InFlight? {
          waiting := waiting + [token];
        } else {
          toPage := toPage + [Answer(outcome, token)];
        }
    }

    /** All requests waiting for the one async_destroy call are answered in the order they came. */
    method DestroySettled(ok: bool)
      modifies this
      ensures State() == LifecycleDestroySettled(old(State()), ok)
    {
      if !outcome.InFlight? { return; }
      outcome := if ok then Succeeded else Failed;
      ghost var posted := toPage;
      while waiting != []
        invariant outcome == if ok then Succeeded else Failed
        invariant adoptHandled == old(adoptHandled) && restored == old(restored) && destroyCalls == old(destroyCalls)
        invariant toPage + Answers(outcome, waiting) == posted + Answers(outcome, old(waiting))
        decreases |waiting|
      {
        toPage := toPage + [Answer(outcome, waiting[0])];
        waiting := waiting[1..];
      }
    }
  }
}
