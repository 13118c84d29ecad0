/** The pool of hidden terminal sessions in which additional sysroots are loaded. */
module SysrootSessions {
  import opened Basics
  import opened SysrootRequests

  const CAPACITY := 8
  const FIRST_SESSION := 0xDDDD_DDDD

  function AllSessions(): seq<int> {
    seq(CAPACITY, i => FIRST_SESSION - i)
  }

  /** What the guest may do with the table at any time. */
  datatype GuestCall = GuestBegins(id: U32) | GuestFinishes(id: U32, failure: Option<LoadError>)

  function AsEvent(call: GuestCall): Event {
    match call
    case GuestBegins(id) => Beginning(id)
    case GuestFinishes(id, failure) => Finishing(id, failure)
  }

  function GuestRun(t: Table, calls: seq<GuestCall>): Table {
    if calls == [] then t else Step(GuestRun(t, calls[..|calls| - 1]), AsEvent(calls[|calls| - 1]))
  }

  predicate RealIds(calls: seq<GuestCall>) {
    forall i | 0 <= i < |calls| :: calls[i].id != 0
  }

  lemma {:induction false} GuestKeepsRequests(t: Table, calls: seq<GuestCall>, id: U32)
    requires Inv(t) && RealIds(calls)
    ensures Inv(GuestRun(t, calls)) && |GuestRun(t, calls).slots| == |t.slots|
    ensures Live(GuestRun(t, calls), id) <==> Live(t, id)
  {
    if calls != [] {
      hide Step, Live, Inv;
      var front, e := calls[..|calls| - 1], AsEvent(calls[|calls| - 1]);
      GuestKeepsRequests(t, front, id);
      var u := GuestRun(t, front);
      StepKeepsInv(u, e);
      LiveAfterStep(u, e, if Live(u, id) then {id} else {}, id);
    }
  }

  // ---------- the partition ----------

  predicate NoneTwice(sessions: seq<int>) {
    forall i, j | 0 <= i < j < |sessions| :: sessions[i] != sessions[j]
  }

  /** Each of the hidden sessions is either free or in use by exactly one request. */
  ghost predicate Partition(sessions: map<U32, int>, available: seq<int>) {
    && NoneTwice(available)
    && (forall r, q | r in sessions && q in sessions && sessions[r] == sessions[q] :: r == q)
    && (forall s :: s in AllSessions() <==> s in available || s in sessions.Values)
    && (forall s | s in available :: s !in sessions.Values)
    && |available| + |sessions| == CAPACITY
  }

  lemma ValuesGrow(sessions: map<U32, int>, id: U32, s: int)
    requires id !in sessions
    ensures sessions[id := s].Values == sessions.Values + {s}
  {
    var taken := sessions[id := s];
    assert taken[id] in taken.Values;
    forall v | v in sessions.Values ensures v in taken.Values {
      var r :| r in sessions && sessions[r] == v;
      assert taken[r] == v;
    }
  }

  lemma TakingSession(sessions: map<U32, int>, available: seq<int>, id: U32)
    requires Partition(sessions, available) && available != [] && id !in sessions
    ensures Partition(sessions[id := available[0]], available[1..])
  {
    hide AllSessions, NoneTwice;
    var taken, rest := sessions[id := available[0]], available[1..];
    ValuesGrow(sessions, id, available[0]);
    FirstAndRest(available);
    forall r, q | r in taken && q in taken && taken[r] == taken[q] ensures r == q {
      assert r != id ==> sessions[r] in sessions.Values;
      assert q != id ==> sessions[q] in sessions.Values;
    }
    assert |taken| == |sessions| + 1;
  }

  lemma FirstAndRest(available: seq<int>)
    requires available != [] && NoneTwice(available)
    ensures NoneTwice(available[1..]) && available[0] !in available[1..]
    ensures forall s :: s in available <==> s == available[0] || s in available[1..]
  {
    assert available == [available[0]] + available[1..];
  }

  lemma ReturningSession(sessions: map<U32, int>, available: seq<int>, id: U32)
    requires Partition(sessions, available) && id in sessions
    ensures Partition(sessions - {id}, available + [sessions[id]])
  {
    var left, s := sessions - {id}, sessions[id];
    assert s in sessions.Values;
    assert sessions.Values == left.Values + {s} by {
      forall v | v in sessions.Values ensures v in left.Values + {s} {
        var r :| r in sessions && sessions[r] == v;
        if r != id { assert left[r] == v; }
      }
    }
  }

  // ---------- the table has a slot for every session ----------

  function Ids(slots: seq<Request>): set<U32> {
    if slots == [] then {} else Ids(slots[1..]) + if slots[0].id == 0 then {} else {slots[0].id}
  }

  lemma {:induction false} FewerIdsThanSlots(slots: seq<Request>)
    ensures |Ids(slots)| <= |slots|
    ensures (exists i | 0 <= i < |slots| :: slots[i].id == 0) ==> |Ids(slots)| < |slots|
    ensures forall i | 0 <= i < |slots| && slots[i].id != 0 :: slots[i].id in Ids(slots)
  {
    if slots != [] {
      FewerIdsThanSlots(slots[1..]);
      forall i | 0 < i < |slots| ensures slots[i] == slots[1..][i - 1] {}
      assert (exists i | 0 <= i < |slots| :: slots[i].id == 0) && slots[0].id != 0 ==>
        exists i | 0 <= i < |slots[1..]| :: slots[1..][i].id == 0;
    }
  }

  /** If the table has a free slot, a session is free as well. */
  lemma FreeSlotMeansFreeSession(t: Table, sessions: map<U32, int>, available: seq<int>)
    requires |t.slots| == CAPACITY && Partition(sessions, available)
    requires forall r | r in sessions :: Live(t, r)
    requires Registered(t).1 != 0
    ensures available != []
  {
    FewerIdsThanSlots(t.slots);
    assert t.slots[Find(t.slots, 0).value].id == 0;
    forall r | r in sessions ensures r in Ids(t.slots) {
      var i :| 0 <= i < |t.slots| && HasId(t, i, r);
    }
    SubsetSize(sessions.Keys, Ids(t.slots));
  }

  lemma {:induction false} SubsetSize(a: set<U32>, b: set<U32>)
    requires a <= b
    ensures |a| <= |b|
    decreases a
  {
    if x :| x in a { SubsetSize(a - {x}, b - {x}); }
  }

  // ---------- the endpoint ----------

  /** Every request with a session is in the table, and the sessions are partitioned. */
  ghost predicate Consistent(t: Table, sessions: map<U32, int>, available: seq<int>) {
    && |t.slots| == CAPACITY && Inv(t) && Partition(sessions, available)
    && forall r | r in sessions :: Live(t, r)
  }

  lemma GuestKeepsConsistent(t: Table, calls: seq<GuestCall>, sessions: map<U32, int>, available: seq<int>)
    requires Consistent(t, sessions, available) && RealIds(calls)
    ensures Consistent(GuestRun(t, calls), sessions, available)
  {
    hide Inv, Live, Partition, GuestRun;
    GuestKeepsRequests(t, calls, 0);
    forall r | r in sessions ensures Live(GuestRun(t, calls), r) { GuestKeepsRequests(t, calls, r); }
  }

  lemma IssuedIdWasFree(t: Table)
    requires Inv(t) && Registered(t).1 != 0
    ensures !Live(t, Registered(t).1)
  {
    forall i | 0 <= i < |t.slots| ensures !HasId(t, i, Registered(t).1) {}
  }

  lemma NewIdIsFresh(t: Table, sessions: map<U32, int>, available: seq<int>)
    requires Consistent(t, sessions, available) && Registered(t).1 != 0
    ensures Registered(t).1 !in sessions && available != []
    ensures Consistent(Registered(t).0, sessions, available) && Live(Registered(t).0, Registered(t).1)
  {
    hide Partition;
    FreeSlotMeansFreeSession(t, sessions, available);
    StepKeepsInv(t, Registering);
    RegisteredIsLive(t);
    forall r | r in sessions ensures Live(Registered(t).0, r) { StepKeepsOthersLive(t, Registering, r); }
    IssuedIdWasFree(t);
  }

  lemma StartedIsConsistent(t: Table, id: U32, sessions: map<U32, int>, available: seq<int>)
    requires Consistent(t, sessions, available) && Live(t, id) && id !in sessions && available != []
    ensures Consistent(t, sessions[id := available[0]], available[1..])
  {
    hide Partition, Inv, Live;
    TakingSession(sessions, available, id);
  }

  /** Releasing one request, whether it had a session or not. */
  lemma ReleasedIsConsistent(t: Table, id: U32, sessions: map<U32, int>, available: seq<int>)
    requires Consistent(t, sessions, available) && id != 0
    ensures Inv(Released(t, id).0) && |Released(t, id).0.slots| == CAPACITY
    ensures forall r | r in sessions && (r != id || Released(t, id).1 == 0) :: Live(Released(t, id).0, r)
  {
    hide Inv, Live, Partition;
    StepKeepsInv(t, Releasing(id));
    ReleasedIsNotLive(t, id);
    ReleaseAnswers(t, id);
    forall r | r in sessions && r != id ensures Live(Released(t, id).0, r) { StepKeepsOthersLive(t, Releasing(id), r); }
  }

  /** The table after a start that failed: the request is cancelled, and released if that is possible. */
  function Withdrawn(t: Table, id: U32): Table {
    Released(Revoked(t, id).0, id).0
  }

  lemma WithdrawnIsConsistent(t: Table, id: U32, sessions: map<U32, int>, available: seq<int>)
    requires Consistent(t, sessions, available) && id != 0 && id !in sessions
    ensures Consistent(Withdrawn(t, id), sessions, available)
  {
    hide Inv, Live, Partition;
    var u := Revoked(t, id).0;
    StepKeepsInv(t, Cancelling(id));
    forall r | r in sessions ensures Live(u, r) { StepKeepsOthersLive(t, Cancelling(id), r); }
    ReleasedIsConsistent(u, id, sessions, available);
  }

  /** A failed start leaves its request in the table for good exactly if the guest is loading it at that moment. */
  lemma WithdrawnUnlessLoading(t: Table, id: U32)
    requires Inv(t) && Live(t, id)
    ensures Live(Withdrawn(t, id), id) <==> StateOf(t, id).Loading?
  {
    hide Inv, Live, Find, Released;
    ZeroIsNotLive(t);
    RevokedStaysUnlessPending(t, id);
    var u := Revoked(t, id).0;
    StepKeepsInv(t, Cancelling(id));
    StepKeepsOthersLive(t, Cancelling(id), id);
    ReleasedIsNotLive(u, id);
    ReleaseAnswers(u, id);
    ReleasedUnlessBusy(u, id);
  }

  /** Whatever the table, a start that fails after the guest has begun to load leaves its request behind. */
  lemma BegunRequestStays(t: Table, sessions: map<U32, int>, available: seq<int>)
    requires Consistent(t, sessions, available) && Registered(t).1 != 0
    ensures var id := Registered(t).1;
            Live(Withdrawn(GuestRun(Registered(t).0, [GuestBegins(id)]), id), id)
  {
    hide Consistent, Partition, Inv, Live, Registered, Withdrawn, Begun, StateOf;
    var u, id := Registered(t).0, Registered(t).1;
    NewIdIsFresh(t, sessions, available);
    ConsistentTable(t, sessions, available);
    ConsistentTable(u, sessions, available);
    ZeroIsNotLive(u);
    BeginsToLoad(t);
    var calls := [GuestBegins(id)];
    assert calls[..0] == [];
    GuestKeepsRequests(u, calls, id);
    assert GuestRun(u, calls) == Step(GuestRun(u, calls[..0]), AsEvent(calls[0])) == Begun(u, id).0;
    WithdrawnUnlessLoading(Begun(u, id).0, id);
  }

  lemma ConsistentTable(t: Table, sessions: map<U32, int>, available: seq<int>)
    requires Consistent(t, sessions, available)
    ensures Inv(t)
  {
  }

  lemma BeginsToLoad(t: Table)
    requires Inv(t) && Registered(t).1 != 0
    ensures var id := Registered(t).1; StateOf(Begun(Registered(t).0, id).0, id).Loading?
  {
    var u, id := Registered(t).0, Registered(t).1;
    var i := Find(t.slots, 0).value;
    assert u.slots[i].id == id && u.slots[i].state.Pending?;
    assert forall j | 0 <= j < |t.slots| && j != i :: u.slots[j] == t.slots[j] && t.slots[j].id != id;
    assert Find(u.slots, id) == Some(i);
    var v := Begun(u, id).0;
    assert forall j | 0 <= j < |t.slots| :: v.slots[j].id == u.slots[j].id;
    assert Find(v.slots, id) == Some(i);
  }

  lemma RevokedStaysUnlessPending(t: Table, id: U32)
    requires Live(t, id)
    ensures StateOf(Revoked(t, id).0, id) == if StateOf(t, id).Pending? then Failed else StateOf(t, id)
  {
    var i :| 0 <= i < |t.slots| && HasId(t, i, id);
    var k := Find(t.slots, id).value;
    var u := Revoked(t, id).0;
    assert forall j | 0 <= j < |t.slots| :: u.slots[j].id == t.slots[j].id;
    assert Find(u.slots, id) == Some(k);
  }

  lemma ReleasedUnlessBusy(t: Table, id: U32)
    requires Live(t, id)
    ensures Released(t, id).1 == 1 <==> StateOf(t, id).Ready? || StateOf(t, id).Failed?
  {
    var i :| 0 <= i < |t.slots| && HasId(t, i, id);
  }

  lemma RefusedChangesNothing(t: Table)
    requires Registered(t).1 == 0
    ensures Registered(t).0 == t
  {
  }

  lemma GuestKeepsLive(t: Table, calls: seq<GuestCall>, sessions: map<U32, int>, available: seq<int>, id: U32)
    requires Consistent(t, sessions, available) && RealIds(calls) && Live(t, id)
    ensures Live(GuestRun(t, calls), id) && id != 0
  {
    hide GuestRun;
    GuestKeepsRequests(t, calls, id);
  }

  /** How the dispatches of one start go, and what the guest does meanwhile. */
  datatype Dispatching =
    | Dispatched(guest: seq<GuestCall>)
    | OpeningThrows(guest: seq<GuestCall>)
    | TypingThrows(guest: seq<GuestCall>)

  datatype StartResult = InvalidTriple | RequestsExhausted | DispatchFailed | Started(id: U32)

  class AdditionalSysrootEndpoint {
    const requests: AdditionalSysrootRequests
    var sessions: map<U32, int>
    var available: seq<int>

    ghost function Requests(): Table
      reads this, requests, requests.slots
    {
      requests.Contents()
    }

    ghost predicate Valid()
      reads this, requests, requests.slots
    {
      Consistent(Requests(), sessions, available)
    }

    constructor ()
      ensures Valid() && sessions == map[] && available == AllSessions() && Requests() == NewTable(CAPACITY)
      ensures fresh(requests) && fresh(requests.slots)
    {
      requests := new AdditionalSysrootRequests(CAPACITY);
      sessions, available := map[], AllSessions();
    }

    /** The guest works on the table on its own. */
    method Guest(calls: seq<GuestCall>)
      requires RealIds(calls)
      modifies requests, requests.slots
      ensures Requests() == GuestRun(old(Requests()), calls) && (old(Valid()) ==> Valid())
    {
      hide Partition, Live, Inv, Begun, Finished, Consistent;
      ghost var t := Requests();
      for i := 0 to |calls|
        invariant Requests() == GuestRun(t, calls[..i])
      {
        assert calls[..i + 1][..i] == calls[..i];
        match calls[i] {
          case GuestBegins(id) => var _ := requests.Begin(id);
          case GuestFinishes(id, failure) => requests.Finish(id, failure);
        }
      }
      assert calls[..|calls|] == calls;
      if Consistent(t, sessions, available) { GuestKeepsConsistent(t, calls, sessions, available); }
    }

    /** Starts loading in a hidden session; whenever the table takes the request there is one. */
    method Start(validTriple: bool, dispatching: Dispatching) returns (r: StartResult)
      requires Valid() && RealIds(dispatching.guest)
      modifies this, requests, requests.slots
      ensures Valid()
      ensures r.InvalidTriple? <==> !validTriple
      ensures r.RequestsExhausted? <==> validTriple && Registered(old(Requests())).1 == 0
      ensures r.DispatchFailed? ==> !dispatching.Dispatched?
      ensures r.Started? ==> dispatching.Dispatched?
      ensures r.Started? ==>
        && r.id !in old(sessions) && r.id == Registered(old(Requests())).1 && old(available) != []
        && sessions == old(sessions)[r.id := old(available)[0]] && available == old(available)[1..]
        && Requests() == GuestRun(Registered(old(Requests())).0, dispatching.guest)
      ensures !r.Started? ==> sessions == old(sessions) && available == old(available)
      ensures r.DispatchFailed? ==>
        var t, id := Registered(old(Requests())).0, Registered(old(Requests())).1;
        Requests() == Withdrawn(GuestRun(t, dispatching.guest), id)
    {
      hide Partition, Live, Inv, Registered, Released, Revoked, Consistent, GuestRun;
      if !validTriple { return InvalidTriple; }
      ghost var t, free, used := Requests(), available, sessions;
      if Registered(t).1 == 0 { RefusedChangesNothing(t); }
      var id := requests.Register();
      if id == 0 { return RequestsExhausted; }
      NewIdIsFresh(t, used, free);
      GuestKeepsConsistent(Requests(), dispatching.guest, used, free);
      GuestKeepsLive(Requests(), dispatching.guest, used, free, id);
      var sessionId := available[0];
      available := available[1..];
      if !dispatching.OpeningThrows? { sessions := sessions[id := sessionId]; }
      Guest(dispatching.guest);
      if dispatching.Dispatched? {
        StartedIsConsistent(Requests(), id, used, free);
        return Started(id);
      }
      WithdrawnIsConsistent(Requests(), id, used, free);
      var _ := requests.Cancel(id);
      var _ := requests.Release(id);
      sessions := sessions - {id};
      available := [sessionId] + available;
      assert sessions == used && available == free;
      return DispatchFailed;
    }

    /** Releases a finished request and frees its session. */
    method Release(id: U32) returns (released: U32)
      requires Valid() && id != 0
      modifies this, requests, requests.slots
      ensures Valid() && (Requests(), released) == Released(old(Requests()), id)
      ensures if released == 1 && id in old(sessions)
        then sessions == old(sessions) - {id} && available == old(available) + [old(sessions)[id]]
        else sessions == old(sessions) && available == old(available)
    {
      hide Live, Inv, Released, Partition;
      ReleasedIsConsistent(Requests(), id, sessions, available);
      ReleaseAnswers(Requests(), id);
      released := requests.Release(id);
      if released == 1 && id in sessions {
        ReturningSession(sessions, available, id);
        var sessionId := sessions[id];
        sessions := sessions - {id};
        available := available + [sessionId];
      }
    }

    method Cancel(id: U32) returns (accepted: U32)
      requires Valid() && id != 0
      modifies requests, requests.slots
      ensures Valid() && (Requests(), accepted) == Revoked(old(Requests()), id)
    {
      hide Live, Inv, Revoked, Partition;
      ghost var t := Requests();
      StepKeepsInv(t, Cancelling(id));
      forall r | r in sessions ensures Live(Revoked(t, id).0, r) { StepKeepsOthersLive(t, Cancelling(id), r); }
      accepted := requests.Cancel(id);
    }
  }
}
