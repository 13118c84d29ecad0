/**
 * The handshake between the page, the utility worker that owns the Animal at first and the lifecycle worker that takes
 * over its destroyer.  Each party is a state with the FIFO queue of messages it has posted.
 */
module Handshake {
  import opened Basics

  type Token = string

  /** A cell that settles once. */
  datatype Promise = Pending | Fulfilled | Rejected {
    function Resolve(): Promise { if Pending? then Fulfilled else this }
    function Reject(): Promise { if Pending? then Rejected else this }
  }

  datatype ToUtility = Initialize | DestroyerAdopted | CancelBeforeDestroyer | AdoptionFailed
  datatype FromUtility = Destroyer | CancelledBeforeDestroyer | Ready | ControlFatal | UtilityFatal
  datatype ToLifecycle = Adopt | Destroy(token: Token)
  datatype FromLifecycle = Adopted | Destroyed(token: Token) | DestroyFatal(token: Token) | AdoptFatal

  // ---------- the page ----------

  datatype Page = Page(
    nextToken: Token,
    initialized: bool,
    destroyerReceived: bool,
    adopted: bool,
    ready: bool,
    disposeRequested: bool,
    cancellationRequested: bool,
    destroyToken: Option<Token>,
    terminal: bool,
    failure: bool,
    fatalReports: nat,
    adoptionFailure: bool,
    startup: Promise,
    disposal: Promise,
    toUtility: seq<ToUtility>,
    toLifecycle: seq<ToLifecycle>)

  function NewPage(token: Token): Page {
    Page(token, false, false, false, false, false, false, None, false, false, 0, false, Pending, Pending, [], [])
  }

  function CompleteDisposal(p: Page): Page {
    var t := p.(terminal := true);
    if p.failure then t.(disposal := p.disposal.Reject())
    else t.(startup := if p.ready then p.startup else p.startup.Reject(), disposal := p.disposal.Resolve())
  }

  /** The first failure after readiness is reported to the consumer unless disposal was asked for. */
  function CaptureFailure(p: Page): Page {
    p.(failure := true,
       fatalReports := p.fatalReports
                       + if !p.failure && p.ready && !p.disposeRequested && p.fatalReports == 0 then 1 else 0)
  }

  function FailImmediately(p: Page): Page {
    if p.terminal then p
    else
      var f := CaptureFailure(p);
      f.(startup := f.startup.Reject(), terminal := true, disposal := f.disposal.Reject())
  }

  function RequestDestroy(p: Page): Page {
    if !p.disposeRequested || !p.adopted || p.destroyToken.Some? || p.terminal then p
    else p.(destroyToken := Some(p.nextToken), toLifecycle := p.toLifecycle + [Destroy(p.nextToken)])
  }

  function CancelBefore(p: Page): Page {
    if !p.disposeRequested || p.destroyerReceived || p.cancellationRequested || p.terminal then p
    else p.(cancellationRequested := true, toUtility := p.toUtility + [CancelBeforeDestroyer])
  }

  function BeginFailureDisposal(p: Page): Page {
    var f := CaptureFailure(p);
    var g := f.(startup := f.startup.Reject(), disposeRequested := true);
    if !g.destroyerReceived then FailImmediately(g) else RequestDestroy(g)
  }

  function PageOnUtility(p: Page, message: FromUtility): Page {
    if p.terminal then p
    else match message
      case ControlFatal => BeginFailureDisposal(p)
      case CancelledBeforeDestroyer =>
        if !p.disposeRequested || p.destroyerReceived then FailImmediately(p) else CompleteDisposal(p)
      case UtilityFatal =>
        if p.adoptionFailure then
          p.(failure := true, startup := p.startup.Reject(), terminal := true, disposal := p.disposal.Reject())
        else if p.disposeRequested && !p.failure then
          var r := p.(startup := p.startup.Reject());
          if p.adopted then r else r.(terminal := true, disposal := r.disposal.Resolve())
        else BeginFailureDisposal(p)
      case Destroyer =>
        if p.destroyerReceived then BeginFailureDisposal(p)
        else p.(destroyerReceived := true, toLifecycle := p.toLifecycle + [Adopt])
      case Ready =>
        if p.disposeRequested then p
        else if !p.adopted || p.ready then BeginFailureDisposal(p)
        else p.(ready := true, startup := p.startup.Resolve())
  }

  function PageOnLifecycle(p: Page, message: FromLifecycle): Page {
    if p.terminal then p
    else match message
      case Adopted =>
        if !p.destroyerReceived || p.adopted then FailImmediately(p)
        else if p.disposeRequested then RequestDestroy(p.(adopted := true))
        else p.(adopted := true, toUtility := p.toUtility + [DestroyerAdopted])
      case AdoptFatal =>
        if p.ready then BeginFailureDisposal(p)
        else p.(adoptionFailure := true, startup := p.startup.Reject(), toUtility := p.toUtility + [AdoptionFailed])
      case Destroyed(token) => if Some(token) != p.destroyToken then p else CompleteDisposal(p)
      case DestroyFatal(token) =>
        if Some(token) != p.destroyToken then p else CompleteDisposal(p.(failure := true))
  }

  function PageOnUtilityBoundary(p: Page): Page {
    if p.terminal then p else if p.adoptionFailure then FailImmediately(p) else BeginFailureDisposal(p)
  }

  function PageInitialize(p: Page): Page {
    if p.initialized || p.terminal || p.disposeRequested then p
    else p.(initialized := true, toUtility := p.toUtility + [Initialize])
  }

  function PageDispose(p: Page): Page {
    if p.terminal || p.disposeRequested then p
    else
      var d := p.(disposeRequested := true);
      if !d.initialized then CompleteDisposal(d)
      else if d.destroyerReceived then RequestDestroy(d)
      else CancelBefore(d)
  }

  // ---------- the utility worker ----------

  datatype Phase = Idle | Preparing | AwaitingAdoption | StartingGuest | DestroyingLocally | Over

  datatype Utility = Utility(
    handlerTerminal: bool,
    phase: Phase,
    initialized: bool,
    adopted: bool,
    lifecycleOwnsDestroyer: bool,
    animalCreated: bool,
    cancelled: bool,
    adoption: Promise,
    published: bool,
    guestStarted: bool,
    destroyCalls: nat,
    toPage: seq<FromUtility>)

  function NewUtility(): Utility {
    Utility(false, Idle, false, false, false, false, false, Pending, false, false, 0, [])
  }

  function PostFatal(u: Utility): Utility {
    u.(phase := Over, handlerTerminal := true, toPage := u.toPage + [UtilityFatal])
  }

  /** The catch block of startup: destroys the Animal unless it was never created or the lifecycle worker owns it. */
  function FailStartup(u: Utility): Utility {
    if u.animalCreated && !u.lifecycleOwnsDestroyer
    then u.(phase := DestroyingLocally, destroyCalls := u.destroyCalls + 1)
    else PostFatal(u)
  }

  function ProtocolError(u: Utility, message: ToUtility): Utility {
    if u.handlerTerminal then u else u.(handlerTerminal := true, toPage := u.toPage + [ControlFatal])
  }

  function UtilityOn(u: Utility, message: ToUtility): Utility {
    if u.handlerTerminal && !message.AdoptionFailed? then u
    else match message
      case Initialize =>
        if u.initialized then ProtocolError(u, message) else u.(initialized := true, phase := Preparing)
      case CancelBeforeDestroyer =>
        if !u.initialized then ProtocolError(u, message)
        else if !u.animalCreated && !u.cancelled then
          u.(cancelled := true, toPage := u.toPage + [CancelledBeforeDestroyer])
        else u
      case AdoptionFailed =>
        if !u.initialized || u.adopted then ProtocolError(u, message)
        else
          var r := u.(adoption := u.adoption.Reject());
          if r.adoption.Rejected? && u.phase.AwaitingAdoption? then FailStartup(r) else r
      case DestroyerAdopted =>
        if !u.initialized || u.adopted then ProtocolError(u, message)
        else
          var r := u.(adopted := true, lifecycleOwnsDestroyer := true, adoption := u.adoption.Resolve());
          if r.adoption.Fulfilled? && u.phase.AwaitingAdoption?
          then r.(phase := StartingGuest, guestStarted := true) else r
  }

  datatype Construction = PrepareFails | ConstructorThrows | PublicationThrows | Constructed

  function UtilityPrepared(u: Utility, outcome: Construction): Utility {
    if !u.phase.Preparing? then u
    else if outcome.PrepareFails? || u.cancelled || outcome.ConstructorThrows? then FailStartup(u)
    else
      var c := u.(animalCreated := true);
      if outcome.PublicationThrows? then FailStartup(c)
      else c.(published := true, phase := AwaitingAdoption, toPage := c.toPage + [Destroyer])
  }

  function UtilityGuestSettled(u: Utility, ok: bool): Utility {
    if !u.phase.StartingGuest? then u
    else if ok then u.(phase := Over, toPage := u.toPage + [Ready]) else FailStartup(u)
  }

  function UtilityDestroySettled(u: Utility): Utility {
    if u.phase.DestroyingLocally? then PostFatal(u) else u
  }

  // ---------- the lifecycle worker ----------

  datatype DestroyOutcome = NotRequested | InFlight | Succeeded | Failed

  datatype Lifecycle = Lifecycle(
    adoptHandled: bool,
    restored: bool,
    outcome: DestroyOutcome,
    destroyCalls: nat,
    waiting: seq<Token>,
    toPage: seq<FromLifecycle>)

  function NewLifecycle(): Lifecycle {
    Lifecycle(false, false, NotRequested, 0, [], [])
  }

  function Answer(outcome: DestroyOutcome, token: Token): FromLifecycle {
    if outcome.Succeeded? then Destroyed(token) else DestroyFatal(token)
  }

  function Answers(outcome: DestroyOutcome, tokens: seq<Token>): seq<FromLifecycle> {
    if tokens == [] then [] else [Answer(outcome, tokens[0])] + Answers(outcome, tokens[1..])
  }

  function LifecycleOn(l: Lifecycle, message: ToLifecycle, restoreOk: bool): Lifecycle {
    match message
    case Adopt =>
      if l.restored || !restoreOk then l.(adoptHandled := true, toPage := l.toPage + [AdoptFatal])
      else l.(adoptHandled := true, restored := true, toPage := l.toPage + [Adopted])
    case Destroy(token) =>
      if !l.restored then l.(toPage := l.toPage + [DestroyFatal(token)])
      else match l.outcome
        case NotRequested => l.(outcome := InFlight, destroyCalls := l.destroyCalls + 1, waiting := l.waiting + [token])
        case InFlight => l.(waiting := l.waiting + [token])
        case _ => l.(toPage := l.toPage + [Answer(l.outcome, token)])
  }

  function LifecycleDestroySettled(l: Lifecycle, ok: bool): Lifecycle {
    if !l.outcome.InFlight? then l
    else
      var outcome := if ok then Succeeded else Failed;
      l.(outcome := outcome, waiting := [], toPage := l.toPage + Answers(outcome, l.waiting))
  }

  // ---------- the three together ----------

  datatype System = System(page: Page, utility: Utility, lifecycle: Lifecycle)

  datatype Event =
    | CallInitialize
    | CallDispose
    | UtilityBoundary
    | LifecycleBoundary
    | DeliverToUtility
    | DeliverToLifecycle(restoreOk: bool)
    | DeliverFromUtility
    | DeliverFromLifecycle
    | Prepared(outcome: Construction)
    | GuestSettled(guestOk: bool)
    | LocalDestroySettled
    | DestroySettled(destroyOk: bool)

  function Start(token: Token): System {
    System(NewPage(token), NewUtility(), NewLifecycle())
  }

  /** Calls and error events come from outside at any time; everything else needs something to deliver or to settle. */
  predicate Possible(s: System, e: Event) {
    match e
    case CallInitialize => true
    case CallDispose => true
    case UtilityBoundary => true
    case LifecycleBoundary => true
    case DeliverToUtility => s.page.toUtility != []
    case DeliverToLifecycle(_) => s.page.toLifecycle != []
    case DeliverFromUtility => s.utility.toPage != []
    case DeliverFromLifecycle => s.lifecycle.toPage != []
    case Prepared(_) => s.utility.phase.Preparing?
    case GuestSettled(_) => s.utility.phase.StartingGuest?
    case LocalDestroySettled => s.utility.phase.DestroyingLocally?
    case DestroySettled(_) => s.lifecycle.outcome.InFlight?
  }

  predicate External(e: Event) {
    e.CallInitialize? || e.CallDispose? || e.UtilityBoundary? || e.LifecycleBoundary?
  }

  function Step(s: System, e: Event): System
    requires Possible(s, e)
  {
    match e
    case CallInitialize => s.(page := PageInitialize(s.page))
    case CallDispose => s.(page := PageDispose(s.page))
    case UtilityBoundary => s.(page := PageOnUtilityBoundary(s.page))
    case LifecycleBoundary => s.(page := FailImmediately(s.page))
    case DeliverToUtility =>
      s.(page := s.page.(toUtility := s.page.toUtility[1..]), utility := UtilityOn(s.utility, s.page.toUtility[0]))
    case DeliverToLifecycle(ok) =>
      s.(page := s.page.(toLifecycle := s.page.toLifecycle[1..]),
         lifecycle := LifecycleOn(s.lifecycle, s.page.toLifecycle[0], ok))
    case DeliverFromUtility =>
      s.(page := PageOnUtility(s.page, s.utility.toPage[0]), utility := s.utility.(toPage := s.utility.toPage[1..]))
    case DeliverFromLifecycle =>
      s.(page := PageOnLifecycle(s.page, s.lifecycle.toPage[0]),
         lifecycle := s.lifecycle.(toPage := s.lifecycle.toPage[1..]))
    case Prepared(outcome) => s.(utility := UtilityPrepared(s.utility, outcome))
    case GuestSettled(ok) => s.(utility := UtilityGuestSettled(s.utility, ok))
    case LocalDestroySettled => s.(utility := UtilityDestroySettled(s.utility))
    case DestroySettled(ok) => s.(lifecycle := LifecycleDestroySettled(s.lifecycle, ok))
  }

  /** An interleaving: states[i + 1] follows states[i] by events[i]. */
  ghost predicate IsRun(token: Token, states: seq<System>, events: seq<Event>) {
    && |states| == |events| + 1
    && states[0] == Start(token)
    && forall i | 0 <= i < |events| :: Possible(states[i], events[i]) && states[i + 1] == Step(states[i], events[i])
  }
}
