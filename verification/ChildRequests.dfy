/** The requests of a child-process bridge, and what its cleanup steps do to them. */
module ChildRequests {
  import opened Basics

  const MAX_MODULE_BYTES := 16 * 1024 * 1024
  const MAX_MODULE_CHUNK_BYTES := 256 * 1024
  const MAX_ERROR_CHUNK_BYTES := 64 * 1024
  const U32_MAX := 0xFFFF_FFFF

  type Id = nat

  datatype Phase = Uploading | Running | Done

  datatype Metadata = Metadata(phase: Phase, status: int, errorLength: nat)

  /** The promise of a run: there is none before the run, and it settles once, with an answer or rejected. */
  datatype Cell = NotStarted | Open | Settled(answer: Option<Metadata>)

  datatype WorkerResult = WorkerResult(status: int, error: Bytes, graceful: bool)

  datatype Request = Request(
    phase: Phase,
    expected: nat,
    module_: Bytes,
    uploaded: nat,
    accepted: Bytes,
    timer: bool,
    worker: bool,
    workerSetup: bool,
    workerTerminated: bool,
    restored: bool,
    restoreRequired: bool,
    recovery: Option<Metadata>,
    result: Option<WorkerResult>,
    errorBytes: Bytes,
    errorOffset: nat,
    /** All error text that was read, in order. */
    given: Bytes,
    run: Cell)

  /** A module that was posted to a worker: whether the worker was alive, and whether its request still was. */
  datatype Post = Post(id: Id, content: Bytes, alive: bool, live: bool)

  datatype Owner = Owner(
    slot: Option<Id>,
    requests: map<Id, Request>,
    children: set<Id>,
    nextId: Id,
    aborted: bool,
    posts: seq<Post>,
    settled: seq<Id>)

  function NewRequest(expected: nat): Request {
    Request(
      Uploading, expected, seq(expected, _ => 0), 0, [], false, false, false, false, false, false, None, None,
      [], 0, [], NotStarted)
  }

  function MetadataOf(r: Request): Metadata {
    Metadata(r.phase, if r.result.Some? then r.result.value.status else 0, |r.errorBytes|)
  }

  // ---------- cleanup of one request ----------

  /**
   * The timer is cleared, the worker gets no listeners and is terminated, and is forgotten unless it is being set up.
   */
  function CleanedUp(r: Request, acquired: bool): Request {
    var w := r.(worker := r.worker || acquired, timer := false);
    if !w.worker then w else w.(workerTerminated := true, worker := w.workerSetup)
  }

  function Restored(r: Request): Request {
    r.(restoreRequired := true, restored := true)
  }

  predicate IsClean(r: Request) {
    !r.timer && !r.worker && (!r.restoreRequired || r.restored)
  }

  /** Settles the run if it is still open. */
  function Answered(r: Request, answer: Option<Metadata>): Request {
    if r.run.Open? then r.(run := Settled(answer)) else r
  }

  // ---------- one request of the owner ----------

  /** The request becomes r, which may settle its run; it may leave the slot and be forgotten. */
  function Updated(o: Owner, id: Id, r: Request, leaves: bool, forgets: bool): Owner
    requires id in o.requests
  {
    Owner(
      if leaves && o.slot == Some(id) then None else o.slot,
      o.requests[id := r],
      if forgets then o.children - {id} else o.children,
      o.nextId,
      o.aborted,
      o.posts,
      if o.requests[id].run.Open? && r.run.Settled? then o.settled + [id] else o.settled)
  }

  predicate Unfinished(r: Request) {
    !r.phase.Done? && r.recovery.None?
  }

  predicate IsLive(o: Owner, id: Id) {
    id in o.requests && o.slot == Some(id) && Unfinished(o.requests[id])
  }

  function FinalizedRecord(r: Request, acquired: bool): Request {
    var c := CleanedUp(r, acquired);
    if c.restoreRequired && !c.restored then Restored(c) else c
  }

  function Finalized(o: Owner, id: Id, acquired: bool): Owner
    requires id in o.requests
  {
    var r := FinalizedRecord(o.requests[id], acquired);
    Updated(o, id, r, false, IsClean(r))
  }

  /** Cleaned up, restored, out of the slot and its run settled. */
  function AbortedRequest(o: Owner, id: Id, acquired: bool): Owner
    requires id in o.requests
  {
    if o.requests[id].phase.Done? then Finalized(o, id, acquired)
    else
      var r := Restored(CleanedUp(o.requests[id], acquired));
      Updated(o, id, Answered(r, None), true, !r.run.Open? && IsClean(r))
  }

  function Truncated(error: Bytes): (r: Bytes)
    ensures |r| <= MAX_ERROR_CHUNK_BYTES
  {
    if |error| <= MAX_ERROR_CHUNK_BYTES then error else error[..MAX_ERROR_CHUNK_BYTES]
  }

  function CompletedRecord(r: Request, result: WorkerResult): Request {
    var c := CleanedUp(r, false);
    var d := (if result.graceful then c else Restored(c)).(
      result := Some(result), errorBytes := Truncated(result.error), errorOffset := 0, phase := Done);
    Answered(d, Some(MetadataOf(d)))
  }

  /** The run is over: cleaned up, restored unless it ended gracefully, and resolved. */
  function Completed(o: Owner, id: Id, result: WorkerResult): Owner
    requires id in o.requests
  {
    if o.slot != Some(id) || !o.requests[id].phase.Running? || o.requests[id].recovery.Some? then o
    else Updated(o, id, CompletedRecord(o.requests[id], result), false, false)
  }

  /** The request in the slot is ended from outside. */
  function AbortedActive(o: Owner, id: Id): Owner
    requires id in o.requests
  {
    var r := Restored(CleanedUp(o.requests[id], false));
    Updated(o, id, Answered(r, None), true, !r.run.Open? && IsClean(r))
  }

  /** Ended as well, but kept in the slot with what it was for whoever recovers. */
  function RetainedRecovery(o: Owner, id: Id): Owner
    requires id in o.requests
  {
    if o.requests[id].recovery.Some? then o
    else
      var r := Restored(CleanedUp(o.requests[id].(recovery := Some(MetadataOf(o.requests[id]))), false));
      Updated(o, id, Answered(r, None), false, !r.run.Open? && IsClean(r))
  }

  function UploadTimedOut(o: Owner, id: Id): Owner
    requires id in o.requests
  {
    var r := o.requests[id].(timer := false);
    if o.slot != Some(id) || !r.phase.Uploading? || r.recovery.Some? then Updated(o, id, r, false, false)
    else Updated(o, id, Restored(r), true, IsClean(Restored(r)))
  }

  // ---------- the invariant ----------

  predicate GoodUpload(r: Request) {
    && r.uploaded <= r.expected && |r.accepted| == r.uploaded
    && (r.phase.Uploading? ==> |r.module_| == r.expected && r.module_[..r.uploaded] == r.accepted)
  }

  /** The error text that is kept: all of it, or as much of its front as fits. */
  predicate IsReport(text: Bytes, error: Bytes) {
    text <= error && |text| == if |error| <= MAX_ERROR_CHUNK_BYTES then |error| else MAX_ERROR_CHUNK_BYTES
  }

  /** Only a finished run has a result; its answer and its error text are those of the result. */
  predicate GoodReport(r: Request) {
    && r.errorOffset <= |r.errorBytes| && r.given == r.errorBytes[..r.errorOffset]
    && (r.phase.Done? ==>
          && r.result.Some? && r.restored == !r.result.value.graceful && IsReport(r.errorBytes, r.result.value.error)
          && r.run == Settled(Some(Metadata(Done, r.result.value.status, |r.errorBytes|))))
    && (!r.phase.Done? ==>
          r.result.None? && r.errorBytes == [] && (r.run.Settled? ==> r.run.answer.None?))
    && (r.recovery.Some? ==> !r.phase.Done? && r.recovery.value == Metadata(r.phase, 0, 0))
  }

  /** Restored or gracefully over, nobody waits for it, and it holds nothing, unless its worker is being set up. */
  predicate EndedSafely(r: Request, setup: bool) {
    && (r.restored || (r.phase.Done? && r.result.Some? && r.result.value.graceful)) && !r.run.Open?
    && (!setup ==> !r.timer && !r.worker)
  }

  /**
   * A live request still has everything to lose; any other has been restored unless it ended gracefully, its run is
   * settled, and it holds no timer and no worker, unless its worker is just being set up.
   */
  predicate GoodEnd(r: Request, live: bool, setup: bool) {
    && r.restoreRequired == r.restored
    && (r.phase.Done? ==> r.result.Some? && r.recovery.None?)
    && (r.phase.Uploading? <==> r.run.NotStarted?)
    && (r.phase.Uploading? ==> !r.worker && !r.workerSetup)
    && (!setup ==> !r.workerSetup)
    && (r.worker && !live ==> r.workerTerminated)
    && if live then !r.restored && (r.phase.Running? ==> r.run.Open?)
       else EndedSafely(r, setup)
  }

  predicate GoodRequest(o: Owner, id: Id, setup: Option<Id>)
    requires id in o.requests
  {
    && id < o.nextId && GoodUpload(o.requests[id]) && GoodReport(o.requests[id])
    && GoodEnd(o.requests[id], IsLive(o, id), setup == Some(id))
    && (o.requests[id].run.Settled? <==> id in o.settled)
    && (IsLive(o, id) ==> id in o.children)
  }

  /**
   * What was posted is everything that was accepted, at the declared length; a live worker got it from a live request.
   */
  predicate GoodPost(o: Owner, p: Post) {
    && p.id in o.requests && !o.requests[p.id].phase.Uploading?
    && p.content == o.requests[p.id].accepted && |p.content| == o.requests[p.id].expected
    && (p.alive ==> p.live)
  }

  ghost predicate Good(o: Owner, setup: Option<Id>) {
    && (o.slot.Some? ==> o.slot.value in o.requests)
    && (forall id | id in o.requests :: GoodRequest(o, id, setup))
    && (forall i | 0 <= i < |o.posts| :: GoodPost(o, o.posts[i]))
    && (forall i, j | 0 <= i < j < |o.settled| :: o.settled[i] != o.settled[j])
    && (forall id | id in o.settled :: id in o.requests)
    && (forall id | id in o.children :: id in o.requests)
  }

  /** After an abort nothing is live any more. */
  ghost predicate AbortIsFinal(o: Owner) {
    o.aborted ==> forall id :: !IsLive(o, id)
  }

  /** What a change of one record must respect. */
  predicate Succeeds(before: Request, after: Request) {
    && (before.phase.Uploading? ||
          (after.accepted == before.accepted && after.expected == before.expected && !after.phase.Uploading?))
    && (after.run == before.run || (before.run.Open? && after.run.Settled?)
      || (before.run.NotStarted? && after.run.Open?))
  }

  /** A setup may begin or end for this request, but not for another. */
  predicate SameSetup(id: Id, setup: Option<Id>, after: Option<Id>) {
    after == setup || ((setup == None || setup == Some(id)) && (after == None || after == Some(id)))
  }

  lemma OthersStayGood(o: Owner, id: Id, r: Request, leaves: bool, forgets: bool, other: Id, setup: Option<Id>,
      after: Option<Id>)
    requires id in o.requests && other != id && other in o.requests && GoodRequest(o, other, setup)
    requires SameSetup(id, setup, after)
    ensures var p := Updated(o, id, r, leaves, forgets);
      other in p.requests && GoodRequest(p, other, after) && IsLive(p, other) == IsLive(o, other)
  {
    hide GoodUpload, GoodReport, GoodEnd;
  }

  lemma PostsStayGood(o: Owner, id: Id, r: Request, leaves: bool, forgets: bool, post: Post)
    requires id in o.requests && Succeeds(o.requests[id], r) && GoodPost(o, post)
    ensures GoodPost(Updated(o, id, r, leaves, forgets), post)
  {
  }

  /** One request changes and keeps its own part of the invariant, and only this one may leave the slot. */
  lemma UpdatedIsGood(o: Owner, id: Id, r: Request, leaves: bool, forgets: bool, setup: Option<Id>, after: Option<Id>)
    requires Good(o, setup) && id in o.requests && Succeeds(o.requests[id], r) && SameSetup(id, setup, after)
    requires var live := o.slot == Some(id) && !leaves && Unfinished(r);
      GoodUpload(r) && GoodReport(r) && GoodEnd(r, live, after == Some(id)) && (live ==> id in o.children && !forgets)
    ensures var p := Updated(o, id, r, leaves, forgets);
      Good(p, after) && forall other | other != id :: IsLive(p, other) ==> IsLive(o, other)
  {
    hide GoodUpload, GoodReport, GoodEnd, GoodPost;
    var p := Updated(o, id, r, leaves, forgets);
    forall other | other in p.requests && other != id
      ensures GoodRequest(p, other, after) && (IsLive(p, other) ==> IsLive(o, other))
    {
      OthersStayGood(o, id, r, leaves, forgets, other, setup, after);
    }
    forall i | 0 <= i < |p.posts| ensures GoodPost(p, p.posts[i]) {
      PostsStayGood(o, id, r, leaves, forgets, o.posts[i]);
    }
    assert GoodRequest(o, id, setup);
  }

  lemma PartsOf(o: Owner, id: Id, setup: Option<Id>)
    requires Good(o, setup) && id in o.requests
    ensures var r := o.requests[id];
      && GoodUpload(r) && GoodReport(r) && GoodEnd(r, IsLive(o, id), setup == Some(id))
      && (IsLive(o, id) ==> id in o.children)
  {
    assert GoodRequest(o, id, setup);
  }

  // ---------- every cleanup keeps it ----------

  lemma FinalizedIsGood(o: Owner, id: Id, acquired: bool, setup: Option<Id>)
    requires Good(o, setup) && id in o.requests && o.requests[id].phase.Done? && (acquired ==> setup == Some(id))
    ensures var p := Finalized(o, id, acquired);
      Good(p, setup) && forall other :: IsLive(p, other) ==> IsLive(o, other)
  {
    PartsOf(o, id, setup);
    hide Good;
    var r := FinalizedRecord(o.requests[id], acquired);
    UpdatedIsGood(o, id, r, false, IsClean(r), setup, setup);
  }

  lemma AbortedIsGood(o: Owner, id: Id, acquired: bool, setup: Option<Id>)
    requires Good(o, setup) && id in o.requests && (acquired ==> setup == Some(id) && !o.requests[id].phase.Uploading?)
    ensures var p := AbortedRequest(o, id, acquired);
      && Good(p, setup) && !IsLive(p, id) && (forall other :: IsLive(p, other) ==> IsLive(o, other))
      && EndedSafely(p.requests[id], setup == Some(id)) && (p.slot == Some(id) ==> p.requests[id].phase.Done?)
  {
    if o.requests[id].phase.Done? {
      FinalizedIsGood(o, id, acquired, setup);
    } else {
      PartsOf(o, id, setup);
      hide Good;
      var r := Restored(CleanedUp(o.requests[id], acquired));
      UpdatedIsGood(o, id, Answered(r, None), true, !r.run.Open? && IsClean(r), setup, setup);
    }
    PartsOf(AbortedRequest(o, id, acquired), id, setup);
  }

  /** The run has been answered with the result, is restored unless graceful, and its error text is there to be read. */
  predicate IsCompletedWith(r: Request, result: WorkerResult) {
    && r.phase.Done? && r.result == Some(result) && r.restored == !result.graceful
    && IsReport(r.errorBytes, result.error) && r.errorOffset == 0 && r.given == []
    && r.run == Settled(Some(Metadata(Done, result.status, |r.errorBytes|)))
  }

  /** Completing keeps the parts of the invariant that are about the record alone. */
  lemma CompletedRecordIsGood(r: Request, result: WorkerResult, setup: bool)
    requires GoodUpload(r) && GoodReport(r) && GoodEnd(r, true, setup)
    requires r.phase.Running? && Unfinished(r)
    ensures var c := CompletedRecord(r, result);
      && GoodUpload(c) && GoodReport(c) && GoodEnd(c, false, setup) && Succeeds(r, c)
      && EndedSafely(c, setup) && IsCompletedWith(c, result)
  {
  }

  lemma CompletedIsGood(o: Owner, id: Id, result: WorkerResult, setup: Option<Id>)
    requires Good(o, setup) && id in o.requests
    ensures var p := Completed(o, id, result);
      && Good(p, setup) && (forall other :: IsLive(p, other) ==> IsLive(o, other))
      && (IsLive(o, id) && o.requests[id].phase.Running? ==>
            && EndedSafely(p.requests[id], setup == Some(id)) && IsCompletedWith(p.requests[id], result))
  {
    PartsOf(o, id, setup);
    hide Good;
    if IsLive(o, id) && o.requests[id].phase.Running? {
      CompletedRecordIsGood(o.requests[id], result, setup == Some(id));
      hide GoodUpload, GoodReport, GoodEnd, Succeeds, EndedSafely;
      UpdatedIsGood(o, id, CompletedRecord(o.requests[id], result), false, false, setup, setup);
    }
  }

  lemma AbortedActiveIsGood(o: Owner, id: Id)
    requires Good(o, None) && id in o.requests && !o.requests[id].phase.Done?
    ensures AbortedActive(o, id) == AbortedRequest(o, id, false)
    ensures var p := AbortedActive(o, id);
      Good(p, None) && !IsLive(p, id) && forall other :: IsLive(p, other) ==> IsLive(o, other)
  {
    AbortedIsGood(o, id, false, None);
  }

  lemma RetainedIsGood(o: Owner, id: Id)
    requires Good(o, None) && id in o.requests && !o.requests[id].phase.Done?
    ensures var p := RetainedRecovery(o, id);
      && Good(p, None) && !IsLive(p, id) && (forall other :: IsLive(p, other) ==> IsLive(o, other))
      && p.slot == o.slot && p.requests[id].restored && EndedSafely(p.requests[id], false)
  {
    PartsOf(o, id, None);
    hide Good;
    if o.requests[id].recovery.None? {
      var r := Restored(CleanedUp(o.requests[id].(recovery := Some(MetadataOf(o.requests[id]))), false));
      UpdatedIsGood(o, id, Answered(r, None), false, !r.run.Open? && IsClean(r), None, None);
    }
  }

  lemma TimedOutIsGood(o: Owner, id: Id)
    requires Good(o, None) && id in o.requests
    ensures var p := UploadTimedOut(o, id);
      && Good(p, None) && (forall other :: IsLive(p, other) ==> IsLive(o, other))
      && (IsLive(o, id) && o.requests[id].phase.Uploading? ==> p.slot == None && p.requests[id].restored)
  {
    PartsOf(o, id, None);
    hide Good;
    var r := o.requests[id].(timer := false);
    if IsLive(o, id) && r.phase.Uploading? {
      UpdatedIsGood(o, id, Restored(r), true, IsClean(Restored(r)), None, None);
    } else {
      UpdatedIsGood(o, id, r, false, false, None, None);
    }
  }
}
