/** The fixed table of additional sysroot requests inside the shell. */
module SysrootRequests {
  import opened Basics

  const U32_LIMIT := 0x1_0000_0000
  type U32 = x: int | 0 <= x < U32_LIMIT

  datatype LoadState = Pending | Loading | Ready | Failed
  datatype LoadError = NoError | Fetch | Extract | InvalidRequest | Cancelled
  datatype Request = Request(id: U32, state: LoadState, error: LoadError, cancelled: bool)

  const EMPTY := Request(0, Pending, NoError, false)

  datatype Table = Table(slots: seq<Request>, nextId: U32)

  function NewTable(capacity: nat): Table {
    Table(seq(capacity, _ => EMPTY), 1)
  }

  // ---------- the operations ----------

  /** The first slot with an id. */
  function Find(slots: seq<Request>, id: U32): (r: Option<nat>)
    ensures r.Some? ==> r.value < |slots| && slots[r.value].id == id && forall i | 0 <= i < r.value :: slots[i].id != id
    ensures r.None? ==> forall i | 0 <= i < |slots| :: slots[i].id != id
  {
    if slots == [] then None
    else if slots[0].id == id then Some(0)
    else match Find(slots[1..], id)
      case None => None
      case Some(i) =>
        assert forall k | 1 <= k < |slots| :: slots[k] == slots[1..][k - 1];
        Some(i + 1)
  }

  function Put(t: Table, i: nat, request: Request): Table
    requires i < |t.slots|
  {
    t.(slots := t.slots[i := request])
  }

  /** Takes a free slot and the next id, which wraps to 0 and then stays there; 0 means refused. */
  function Registered(t: Table): (Table, U32) {
    match Find(t.slots, 0)
    case None => (t, 0)
    case Some(i) =>
      if t.nextId == 0 then (t, 0)
      else (Put(t, i, Request(t.nextId, Pending, NoError, false)).(nextId := (t.nextId + 1) % U32_LIMIT), t.nextId)
  }

  function Begun(t: Table, id: U32): (Table, bool) {
    match Find(t.slots, id)
    case None => (t, false)
    case Some(i) =>
      if !t.slots[i].state.Pending? then (t, false) else (Put(t, i, t.slots[i].(state := Loading)), true)
  }

  function Finished(t: Table, id: U32, failure: Option<LoadError>): Table {
    match Find(t.slots, id)
    case None => t
    case Some(i) =>
      if !t.slots[i].state.Loading? then t
      else if t.slots[i].cancelled then Put(t, i, t.slots[i].(state := Failed, error := Cancelled))
      else match failure
        case None => Put(t, i, t.slots[i].(state := Ready, error := NoError))
        case Some(error) => Put(t, i, t.slots[i].(state := Failed, error := error))
  }

  function StateOf(t: Table, id: U32): LoadState {
    match Find(t.slots, id)
    case None => Failed
    case Some(i) => t.slots[i].state
  }

  function ErrorOf(t: Table, id: U32): LoadError {
    match Find(t.slots, id)
    case None => InvalidRequest
    case Some(i) => t.slots[i].error
  }

  function IsCancelled(t: Table, id: U32): bool {
    match Find(t.slots, id)
    case None => false
    case Some(i) => t.slots[i].cancelled
  }

  function Released(t: Table, id: U32): (Table, U32) {
    match Find(t.slots, id)
    case None => (t, 0)
    case Some(i) =>
      if t.slots[i].state.Ready? || t.slots[i].state.Failed? then (Put(t, i, EMPTY), 1) else (t, 0)
  }

  function Revoked(t: Table, id: U32): (Table, U32) {
    match Find(t.slots, id)
    case None => (t, 0)
    case Some(i) =>
      match t.slots[i].state
      case Pending => (Put(t, i, t.slots[i].(state := Failed, error := Cancelled)), 1)
      case Loading => (Put(t, i, t.slots[i].(cancelled := true)), 1)
      case _ => (t, 0)
  }

  // ---------- runs ----------

  datatype Event =
    | Registering
    | Beginning(id: U32)
    | Finishing(id: U32, failure: Option<LoadError>)
    | Releasing(id: U32)
    | Cancelling(id: U32)

  /** Any call with a real id; id 0 would find an empty slot. */
  predicate Possible(e: Event) {
    e.Registering? || e.id != 0
  }

  function Step(t: Table, e: Event): Table {
    match e
    case Registering => Registered(t).0
    case Beginning(id) => Begun(t, id).0
    case Finishing(id, failure) => Finished(t, id, failure)
    case Releasing(id) => Released(t, id).0
    case Cancelling(id) => Revoked(t, id).0
  }

  ghost predicate IsRun(capacity: nat, states: seq<Table>, events: seq<Event>) {
    && |states| == |events| + 1 && states[0] == NewTable(capacity)
    && forall i | 0 <= i < |events| :: Possible(events[i]) && states[i + 1] == Step(states[i], events[i])
  }

  /** How many ids have been used up, 0 included. */
  function Used(t: Table): int {
    if t.nextId == 0 then U32_LIMIT else t.nextId
  }

  predicate HasId(t: Table, i: nat, id: U32)
    requires i < |t.slots|
  {
    t.slots[i].id == id
  }

  ghost predicate Live(t: Table, id: U32) {
    id != 0 && exists i | 0 <= i < |t.slots| :: HasId(t, i, id)
  }

  /** Live ids are distinct and were issued. */
  ghost predicate Inv(t: Table) {
    && Used(t) >= 1
    && (forall i | 0 <= i < |t.slots| :: t.slots[i].id < Used(t))
    && (forall i, j | 0 <= i < j < |t.slots| :: t.slots[i].id == t.slots[j].id ==> t.slots[i].id == 0)
    && (forall i | 0 <= i < |t.slots| :: t.slots[i].id == 0 ==> t.slots[i] == EMPTY)
  }

  lemma StepKeepsInv(t: Table, e: Event)
    requires Inv(t) && Possible(e)
    ensures Inv(Step(t, e)) && Used(t) <= Used(Step(t, e)) && |Step(t, e).slots| == |t.slots|
    ensures e.Registering? && Registered(t).1 != 0 ==> Registered(t).1 == Used(t) && Used(Step(t, e)) == Used(t) + 1
  {
    hide Inv;
    if e.Registering? {
      RegisteringKeepsInv(t);
    } else if Find(t.slots, e.id).Some? {
      var i := Find(t.slots, e.id).value;
      UpdateKeepsInv(t, i, Step(t, e).slots[i]);
      assert t.slots[i := t.slots[i]] == t.slots;
    }
  }

  lemma RegisteringKeepsInv(t: Table)
    requires Inv(t)
    ensures Inv(Registered(t).0)
  {
  }

  lemma UpdateKeepsInv(t: Table, i: nat, request: Request)
    requires Inv(t) && i < |t.slots| && (request == EMPTY || request.id == t.slots[i].id != 0)
    ensures Inv(Put(t, i, request))
  {
  }

  lemma {:induction false} InvThroughout(capacity: nat, states: seq<Table>, events: seq<Event>, i: nat)
    requires IsRun(capacity, states, events) && i < |states|
    ensures Inv(states[i]) && |states[i].slots| == capacity
  {
    if i > 0 {
      InvThroughout(capacity, states, events, i - 1);
      StepKeepsInv(states[i - 1], events[i - 1]);
    }
  }

  lemma {:induction false} UsedGrows(capacity: nat, states: seq<Table>, events: seq<Event>, i: nat, j: nat)
    requires IsRun(capacity, states, events) && i <= j < |states|
    ensures Used(states[i]) <= Used(states[j])
  {
    hide Step;
    if i < j {
      UsedGrows(capacity, states, events, i, j - 1);
      InvThroughout(capacity, states, events, j - 1);
      StepKeepsInv(states[j - 1], events[j - 1]);
    }
  }

  /** Ids are issued in increasing order, so none is issued twice. */
  lemma NeverIssuedTwice(capacity: nat, states: seq<Table>, events: seq<Event>, i: nat, j: nat)
    requires IsRun(capacity, states, events) && i < j < |events| && events[i].Registering? && events[j].Registering?
    requires Registered(states[i]).1 != 0 && Registered(states[j]).1 != 0
    ensures Registered(states[i]).1 < Registered(states[j]).1
  {
    hide Registered;
    InvThroughout(capacity, states, events, i);
    InvThroughout(capacity, states, events, j);
    StepKeepsInv(states[i], events[i]);
    StepKeepsInv(states[j], events[j]);
    UsedGrows(capacity, states, events, i + 1, j);
  }

  // ---------- cancelled requests ----------

  /** The request is gone, has failed or will fail. */
  ghost predicate Doomed(t: Table, id: U32) {
    && 0 < id < Used(t)
    && forall i | 0 <= i < |t.slots| && HasId(t, i, id) ::
      t.slots[i].state.Failed? || (t.slots[i].state.Loading? && t.slots[i].cancelled)
  }

  lemma StepKeepsDoom(t: Table, e: Event, id: U32)
    requires Inv(t) && Doomed(t, id) && Possible(e)
    ensures Doomed(Step(t, e), id)
  {
    forall i | 0 <= i < |t.slots| && HasId(Step(t, e), i, id) ensures HasId(t, i, id) {}
  }

  lemma CancelDooms(t: Table, id: U32)
    requires Inv(t) && id != 0 && Revoked(t, id).1 == 1
    ensures Doomed(Revoked(t, id).0, id)
  {
  }

  /** A request whose cancel was accepted never becomes ready. */
  lemma {:induction false} CancelledNeverReady(capacity: nat, states: seq<Table>, events: seq<Event>, i: nat, j: nat,
      id: U32)
    requires IsRun(capacity, states, events) && i < j < |states|
    requires events[i] == Cancelling(id) && Revoked(states[i], id).1 == 1
    ensures Doomed(states[j], id) && !StateOf(states[j], id).Ready?
    decreases j
  {
    hide Revoked, Step;
    InvThroughout(capacity, states, events, j - 1);
    if j == i + 1 {
      CancelDooms(states[i], id);
      StepCancels(states[i], id);
    } else {
      CancelledNeverReady(capacity, states, events, i, j - 1, id);
      StepKeepsDoom(states[j - 1], events[j - 1], id);
    }
    DoomedIsNotReady(states[j], id);
  }

  lemma StepCancels(t: Table, id: U32)
    ensures Step(t, Cancelling(id)) == Revoked(t, id).0
  {
  }

  lemma DoomedIsNotReady(t: Table, id: U32)
    requires Doomed(t, id)
    ensures !StateOf(t, id).Ready?
  {
    if Find(t.slots, id).Some? { assert HasId(t, Find(t.slots, id).value, id); }
  }

  // ---------- accounting ----------

  /** The outstanding ids after one more event. */
  function After(before: set<U32>, t: Table, e: Event): set<U32> {
    match e
    case Registering => if Registered(t).1 == 0 then before else before + {Registered(t).1}
    case Releasing(id) => if Released(t, id).1 == 1 then before - {id} else before
    case _ => before
  }

  /** The ids issued so far and not yet released. */
  function Outstanding(states: seq<Table>, events: seq<Event>, j: nat): set<U32>
    requires |states| == |events| + 1 && j < |states|
  {
    if j == 0 then {} else After(Outstanding(states, events, j - 1), states[j - 1], events[j - 1])
  }

  lemma StepKeepsOthersLive(t: Table, e: Event, id: U32)
    requires Inv(t) && Possible(e) && Live(t, id) && e != Releasing(id)
    ensures Live(Step(t, e), id)
  {
    var i :| 0 <= i < |t.slots| && HasId(t, i, id);
    assert HasId(Step(t, e), i, id);
  }

  lemma StepRevivesNothing(t: Table, e: Event, id: U32)
    requires Inv(t) && Possible(e) && Live(Step(t, e), id)
    ensures Live(t, id) || (e.Registering? && id == Registered(t).1)
  {
    var i :| 0 <= i < |t.slots| && HasId(Step(t, e), i, id);
    assert HasId(t, i, id) || (e.Registering? && id == Registered(t).1);
  }

  lemma RegisteredIsLive(t: Table)
    requires Registered(t).1 != 0
    ensures Live(Registered(t).0, Registered(t).1)
  {
    assert HasId(Registered(t).0, Find(t.slots, 0).value, t.nextId);
  }

  lemma ReleasedIsNotLive(t: Table, id: U32)
    requires Inv(t) && id != 0
    ensures Live(Released(t, id).0, id) <==> Live(t, id) && Released(t, id).1 == 0
  {
    if Live(t, id) {
      var i :| 0 <= i < |t.slots| && HasId(t, i, id);
      assert Find(t.slots, id) == Some(i);
    }
  }

  lemma LiveAfterStep(t: Table, e: Event, before: set<U32>, id: U32)
    requires Inv(t) && Possible(e) && (Live(t, id) <==> id in before)
    ensures Live(Step(t, e), id) <==> id in After(before, t, e)
  {
    hide Live, Inv, Registered, Released, Revoked, Begun, Finished;
    ZeroIsNotLive(Step(t, e));
    if Live(Step(t, e), id) { StepRevivesNothing(t, e, id); }
    if Live(t, id) && e != Releasing(id) { StepKeepsOthersLive(t, e, id); }
    if e.Registering? && Registered(t).1 != 0 { RegisteredIsLive(t); }
    if e.Releasing? {
      ReleasedIsNotLive(t, e.id);
      ReleaseAnswers(t, e.id);
    }
  }

  lemma ReleaseAnswers(t: Table, id: U32)
    ensures Released(t, id).1 == 0 || Released(t, id).1 == 1
  {
  }

  /** The table holds exactly the requests that were issued and not released. */
  lemma {:induction false} RequestsAreAccountedFor(capacity: nat, states: seq<Table>, events: seq<Event>, j: nat,
      id: U32)
    requires IsRun(capacity, states, events) && j < |states|
    ensures Live(states[j], id) <==> id in Outstanding(states, events, j)
  {
    if j > 0 {
      hide Live, Step, After, Inv;
      InvThroughout(capacity, states, events, j - 1);
      RequestsAreAccountedFor(capacity, states, events, j - 1, id);
      LiveAfterStep(states[j - 1], events[j - 1], Outstanding(states, events, j - 1), id);
    }
  }

  lemma ZeroIsNotLive(t: Table)
    ensures !Live(t, 0)
  {
  }

  // ---------- what has become of a request ----------

  lemma FoundAt(t: Table, i: nat, id: U32)
    requires Inv(t) && i < |t.slots| && t.slots[i].id == id != 0
    ensures Find(t.slots, id) == Some(i)
    ensures StateOf(t, id) == t.slots[i].state && ErrorOf(t, id) == t.slots[i].error
    ensures IsCancelled(t, id) == t.slots[i].cancelled
  {
  }

  predicate SameRequest(t: Table, u: Table, id: U32) {
    StateOf(u, id) == StateOf(t, id) && ErrorOf(u, id) == ErrorOf(t, id) && IsCancelled(u, id) == IsCancelled(t, id)
  }

  /**
   * A load that was begun and not cancelled ends as its result says; each call moves a request on or leaves it alone.
   */
  lemma StateAfter(t: Table, e: Event, id: U32)
    requires Inv(t) && Possible(e) && Live(t, id) && Live(Step(t, e), id)
    ensures e == Beginning(id) && StateOf(t, id).Pending? ==>
      && StateOf(Step(t, e), id).Loading? && IsCancelled(Step(t, e), id) == IsCancelled(t, id)
      && ErrorOf(Step(t, e), id) == ErrorOf(t, id)
    ensures e.Finishing? && e.id == id && StateOf(t, id).Loading? && !IsCancelled(t, id) ==>
      && (StateOf(Step(t, e), id).Ready? <==> e.failure.None?)
      && (e.failure.None? ==> ErrorOf(Step(t, e), id) == NoError)
      && (e.failure.Some? ==> StateOf(Step(t, e), id).Failed? && ErrorOf(Step(t, e), id) == e.failure.value)
    ensures e.Finishing? && e.id == id && StateOf(t, id).Loading? && IsCancelled(t, id) ==>
      StateOf(Step(t, e), id).Failed? && ErrorOf(Step(t, e), id) == Cancelled
    ensures e == Cancelling(id) && StateOf(t, id).Pending? ==>
      StateOf(Step(t, e), id).Failed? && ErrorOf(Step(t, e), id) == Cancelled
    ensures e == Cancelling(id) && StateOf(t, id).Loading? ==>
      && StateOf(Step(t, e), id).Loading? && IsCancelled(Step(t, e), id)
      && ErrorOf(Step(t, e), id) == ErrorOf(t, id)
    ensures e.Registering? || e.id != id || e.Releasing?
            || (e.Beginning? && !StateOf(t, id).Pending?) || (e.Finishing? && !StateOf(t, id).Loading?)
            || (e.Cancelling? && !StateOf(t, id).Pending? && !StateOf(t, id).Loading?) ==>
      SameRequest(t, Step(t, e), id)
  {
    var i :| 0 <= i < |t.slots| && HasId(t, i, id);
    StepKeepsInv(t, e);
    FoundAt(t, i, id);
    SlotStays(t, e, i, id);
    FoundAt(Step(t, e), i, id);
    hide Find, Inv;
  }

  lemma SlotStays(t: Table, e: Event, i: nat, id: U32)
    requires Inv(t) && Possible(e) && i < |t.slots| && t.slots[i].id == id != 0 && Live(Step(t, e), id)
    ensures |Step(t, e).slots| == |t.slots| && Step(t, e).slots[i].id == id
    ensures e.Registering? || e.id != id ==> Step(t, e).slots[i] == t.slots[i]
  {
    FoundAt(t, i, id);
    var j :| 0 <= j < |Step(t, e).slots| && HasId(Step(t, e), j, id);
  }

  /** A new request waits to be begun. */
  lemma RegisteredIsPending(t: Table)
    requires Inv(t) && Registered(t).1 != 0
    ensures StateOf(Registered(t).0, Registered(t).1).Pending? && !IsCancelled(Registered(t).0, Registered(t).1)
    ensures ErrorOf(Registered(t).0, Registered(t).1) == NoError
  {
    RegisteringKeepsInv(t);
    FoundAt(Registered(t).0, Find(t.slots, 0).value, t.nextId);
  }

  /** Begin says whether the request was waiting, and cancel whether there was something to cancel. */
  lemma AnswersTellTheState(t: Table, id: U32)
    requires Inv(t) && id != 0
    ensures Begun(t, id).1 <==> Live(t, id) && StateOf(t, id).Pending?
    ensures Revoked(t, id).1 == 1 <==> Live(t, id) && (StateOf(t, id).Pending? || StateOf(t, id).Loading?)
    ensures Revoked(t, id).1 == 0 || Revoked(t, id).1 == 1
    ensures Released(t, id).1 == 1 <==> Live(t, id) && (StateOf(t, id).Ready? || StateOf(t, id).Failed?)
    ensures !Live(t, id) ==> StateOf(t, id).Failed? && ErrorOf(t, id) == InvalidRequest && !IsCancelled(t, id)
  {
    if Find(t.slots, id).Some? { assert HasId(t, Find(t.slots, id).value, id); }
  }

  ghost predicate BeganAt(states: seq<Table>, events: seq<Event>, k: nat, id: U32)
    requires k < |events| < |states|
  {
    events[k] == Beginning(id) && Live(states[k], id) && StateOf(states[k], id).Pending?
  }

  ghost predicate CancelledAt(states: seq<Table>, events: seq<Event>, k: nat, id: U32)
    requires k < |events| < |states|
  {
    events[k] == Cancelling(id) && Live(states[k], id)
    && (StateOf(states[k], id).Pending? || StateOf(states[k], id).Loading?)
  }

  ghost predicate FinishedAt(states: seq<Table>, events: seq<Event>, k: nat, id: U32)
    requires k < |events| < |states|
  {
    events[k].Finishing? && events[k].id == id && Live(states[k], id) && StateOf(states[k], id).Loading?
  }

  ghost predicate CancelledBefore(states: seq<Table>, events: seq<Event>, j: nat, id: U32)
    requires j <= |events| < |states|
  {
    exists k | 0 <= k < j :: CancelledAt(states, events, k, id)
  }

  /** The load came to its end well, and nobody had cancelled it. */
  ghost predicate LoadedAt(states: seq<Table>, events: seq<Event>, k: nat, id: U32)
    requires k < |events| < |states|
  {
    FinishedAt(states, events, k, id) && events[k].failure.None? && !CancelledBefore(states, events, k, id)
  }

  /** It was cancelled before it was begun, or its load came to its end cancelled or with this error. */
  ghost predicate FailedAt(states: seq<Table>, events: seq<Event>, k: nat, id: U32, error: LoadError)
    requires k < |events| < |states|
  {
    || (CancelledAt(states, events, k, id) && StateOf(states[k], id).Pending? && error == Cancelled)
    || (FinishedAt(states, events, k, id)
        && if CancelledBefore(states, events, k, id) then error == Cancelled else events[k].failure == Some(error))
  }

  ghost predicate BegunBefore(states: seq<Table>, events: seq<Event>, j: nat, id: U32)
    requires j <= |events| < |states|
  {
    exists k | 0 <= k < j :: BeganAt(states, events, k, id)
  }

  ghost predicate FinishedBefore(states: seq<Table>, events: seq<Event>, j: nat, id: U32)
    requires j <= |events| < |states|
  {
    exists k | 0 <= k < j :: FinishedAt(states, events, k, id)
  }

  ghost predicate LoadedBefore(states: seq<Table>, events: seq<Event>, j: nat, id: U32)
    requires j <= |events| < |states|
  {
    exists k | 0 <= k < j :: LoadedAt(states, events, k, id)
  }

  ghost predicate FailedBefore(states: seq<Table>, events: seq<Event>, j: nat, id: U32, error: LoadError)
    requires j <= |events| < |states|
  {
    exists k | 0 <= k < j :: FailedAt(states, events, k, id, error)
  }

  /** What the state of a live request says about everything that has happened. */
  ghost predicate StateTells(states: seq<Table>, events: seq<Event>, j: nat, id: U32)
    requires j <= |events| < |states|
  {
    var state := StateOf(states[j], id);
    && (state.Pending? <==> !BegunBefore(states, events, j, id) && !CancelledBefore(states, events, j, id))
    && (state.Loading? <==> BegunBefore(states, events, j, id) && !FinishedBefore(states, events, j, id))
    && (state.Ready? <==> LoadedBefore(states, events, j, id))
    && (state.Failed? ==> FailedBefore(states, events, j, id, ErrorOf(states[j], id)))
    && (forall error | FailedBefore(states, events, j, id, error) :: state.Failed? && ErrorOf(states[j], id) == error)
    && (state.Loading? ==> (IsCancelled(states[j], id) <==> CancelledBefore(states, events, j, id)))
    && (state.Pending? ==> !IsCancelled(states[j], id) && !FinishedBefore(states, events, j, id))
    && (!state.Failed? ==> ErrorOf(states[j], id) == NoError)
  }

  lemma OneMoreEvent(states: seq<Table>, events: seq<Event>, j: nat, id: U32)
    requires j < |events| < |states|
    ensures BegunBefore(states, events, j + 1, id) <==>
      BegunBefore(states, events, j, id) || BeganAt(states, events, j, id)
    ensures CancelledBefore(states, events, j + 1, id) <==>
            CancelledBefore(states, events, j, id) || CancelledAt(states, events, j, id)
    ensures FinishedBefore(states, events, j + 1, id) <==>
            FinishedBefore(states, events, j, id) || FinishedAt(states, events, j, id)
    ensures LoadedBefore(states, events, j + 1, id) <==>
            LoadedBefore(states, events, j, id) || LoadedAt(states, events, j, id)
  {
    hide BeganAt, CancelledAt, FinishedAt, LoadedAt;
  }

  lemma OneMoreFailure(states: seq<Table>, events: seq<Event>, j: nat, id: U32, error: LoadError)
    requires j < |events| < |states|
    ensures FailedBefore(states, events, j + 1, id, error) <==>
            FailedBefore(states, events, j, id, error) || FailedAt(states, events, j, id, error)
  {
    hide FailedAt;
  }

  /** The event fails the request with an error, or the request stays failed or not failed as it was. */
  lemma FailureAfter(states: seq<Table>, events: seq<Event>, j: nat, id: U32, error: LoadError)
    requires j < |events| < |states| && states[j + 1] == Step(states[j], events[j])
    requires Inv(states[j]) && Possible(events[j]) && Live(states[j], id) && Live(states[j + 1], id)
    requires StateTells(states, events, j, id)
    ensures StateOf(states[j + 1], id).Failed? && ErrorOf(states[j + 1], id) == error <==>
            FailedBefore(states, events, j + 1, id, error)
  {
    StateAfter(states[j], events[j], id);
    OneMoreFailure(states, events, j, id, error);
    hide Inv, Live, StateOf, ErrorOf, IsCancelled, Step;
    hide BegunBefore, CancelledBefore, FinishedBefore, LoadedBefore, FailedBefore;
  }

  /** Nothing has been done with an id that was not issued yet. */
  lemma NothingBeforeIssue(capacity: nat, states: seq<Table>, events: seq<Event>, j: nat, id: U32)
    requires IsRun(capacity, states, events) && j < |events| && Used(states[j]) <= id
    ensures forall k | 0 <= k <= j :: !Live(states[k], id)
  {
    forall k | 0 <= k <= j ensures !Live(states[k], id) {
      InvThroughout(capacity, states, events, k);
      UsedGrows(capacity, states, events, k, j);
    }
  }

  lemma StateTellsWhenIssued(capacity: nat, states: seq<Table>, events: seq<Event>, j: nat)
    requires IsRun(capacity, states, events) && j < |events| && events[j].Registering? && Registered(states[j]).1 != 0
    ensures StateTells(states, events, j + 1, Registered(states[j]).1)
  {
    InvThroughout(capacity, states, events, j);
    StepKeepsInv(states[j], events[j]);
    RegisteredIsPending(states[j]);
    NothingBeforeIssue(capacity, states, events, j, Registered(states[j]).1);
    assert states[j + 1] == Registered(states[j]).0;
    hide Registered, Live, StateOf, ErrorOf, IsCancelled, Step;
  }

  lemma StateTellsOneMore(states: seq<Table>, events: seq<Event>, j: nat, id: U32)
    requires j < |events| < |states| && states[j + 1] == Step(states[j], events[j])
    requires Inv(states[j]) && Possible(events[j]) && Live(states[j], id) && Live(states[j + 1], id)
    requires StateTells(states, events, j, id)
    ensures StateTells(states, events, j + 1, id)
  {
    StateAfter(states[j], events[j], id);
    OneMoreEvent(states, events, j, id);
    var n := j + 1;
    FailureAfter(states, events, j, id, ErrorOf(states[n], id));
    forall error | FailedBefore(states, events, n, id, error)
      ensures StateOf(states[n], id).Failed? && ErrorOf(states[n], id) == error
    {
      FailureAfter(states, events, j, id, error);
    }
    hide Inv, Live, StateOf, ErrorOf, IsCancelled, Step;
    hide BegunBefore, CancelledBefore, FinishedBefore, LoadedBefore, FailedBefore;
  }

  /** At any time the state of a live request says exactly how it was begun, cancelled and finished. */
  lemma {:induction false} StateTellsHistory(capacity: nat, states: seq<Table>, events: seq<Event>, j: nat, id: U32)
    requires IsRun(capacity, states, events) && j < |states| && Live(states[j], id)
    ensures StateTells(states, events, j, id)
  {
    hide Live, Step, StateTells, Inv, Registered;
    if j == 0 {
      NothingLiveAtStart(capacity, id);
    } else {
      InvThroughout(capacity, states, events, j - 1);
      StepRevivesNothing(states[j - 1], events[j - 1], id);
      if Live(states[j - 1], id) {
        StateTellsHistory(capacity, states, events, j - 1, id);
        StateTellsOneMore(states, events, j - 1, id);
      } else {
        ZeroIsNotLive(states[j]);
        StateTellsWhenIssued(capacity, states, events, j - 1);
      }
    }
  }

  lemma NothingLiveAtStart(capacity: nat, id: U32)
    ensures !Live(NewTable(capacity), id)
  {
    forall i | 0 <= i < capacity ensures !HasId(NewTable(capacity), i, id) || id == 0 {}
  }

  // ---------- the table itself ----------

  class AdditionalSysrootRequests {
    const slots: array<Request>
    var nextId: U32

    ghost function Contents(): Table
      reads this, slots
    {
      Table(slots[..], nextId)
    }

    constructor (capacity: nat)
      ensures Contents() == NewTable(capacity) && slots.Length == capacity && fresh(slots)
    {
      slots := new Request[capacity](_ => EMPTY);
      nextId := 1;
    }

    method IndexOf(id: U32) returns (r: int)
      ensures r == match Find(slots[..], id) case None => -1 case Some(i) => i
    {
      for i := 0 to slots.Length
        invariant forall k | 0 <= k < i :: slots[k].id != id
      {
        if slots[i].id == id { return i; }
      }
      return -1;
    }

    method Register() returns (id: U32)
      modifies this, slots
      ensures (Contents(), id) == Registered(old(Contents()))
    {
      var i := IndexOf(0);
      if i < 0 { return 0; }
      id := nextId;
      if id == 0 { return 0; }
      nextId := (id + 1) % U32_LIMIT;
      slots[i] := Request(id, Pending, NoError, false);
    }

    method Begin(id: U32) returns (begun: bool)
      modifies slots
      ensures (Contents(), begun) == Begun(old(Contents()), id)
    {
      var i := IndexOf(id);
      if i < 0 || !slots[i].state.Pending? { return false; }
      slots[i] := slots[i].(state := Loading);
      return true;
    }

    method Finish(id: U32, failure: Option<LoadError>)
      modifies slots
      ensures Contents() == Finished(old(Contents()), id, failure)
    {
      var i := IndexOf(id);
      if i < 0 || !slots[i].state.Loading? { return; }
      if slots[i].cancelled {
        slots[i] := slots[i].(state := Failed, error := Cancelled);
        return;
      }
      slots[i] := match failure
        case None => slots[i].(state := Ready, error := NoError)
        case Some(error) => slots[i].(state := Failed, error := error);
    }

    method State(id: U32) returns (state: LoadState)
      ensures state == StateOf(Contents(), id)
    {
      var i := IndexOf(id);
      return if i < 0 then Failed else slots[i].state;
    }

    method Error(id: U32) returns (error: LoadError)
      ensures error == ErrorOf(Contents(), id)
    {
      var i := IndexOf(id);
      return if i < 0 then InvalidRequest else slots[i].error;
    }

    method Cancelling(id: U32) returns (cancelled: bool)
      ensures cancelled == IsCancelled(Contents(), id)
    {
      var i := IndexOf(id);
      return i >= 0 && slots[i].cancelled;
    }

    method Release(id: U32) returns (released: U32)
      modifies slots
      ensures (Contents(), released) == Released(old(Contents()), id)
    {
      var i := IndexOf(id);
      if i < 0 || !(slots[i].state.Ready? || slots[i].state.Failed?) { return 0; }
      slots[i] := EMPTY;
      return 1;
    }

    method Cancel(id: U32) returns (accepted: U32)
      modifies slots
      ensures (Contents(), accepted) == Revoked(old(Contents()), id)
    {
      var i := IndexOf(id);
      if i < 0 { return 0; }
      match slots[i].state {
        case Pending => slots[i] := slots[i].(state := Failed, error := LoadError.Cancelled);
        case Loading => slots[i] := slots[i].(cancelled := true);
        case _ => return 0;
      }
      return 1;
    }
  }
}
