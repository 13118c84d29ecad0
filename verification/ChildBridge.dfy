/** The bridge that uploads and runs one child process at a time. */
module ChildBridge {
  import opened Basics
  import opened ChildRequests

  /** What may happen while a call into the environment is in progress. */
  datatype Interrupt = AbortNow | ResultNow(result: WorkerResult)
  /** A call into the environment: what happens meanwhile, and whether it throws in the end. */
  datatype Callback = Callback(interrupts: seq<Interrupt>, throws: bool)
  /** The calls a run makes to set up its worker. */
  datatype Setup = Setup(createWorker: Callback, setTimeout: Callback, getWasiRef: Callback, postMessage: Callback)

  /** The call neither throws nor is used to abort the owner. */
  predicate Passes(callback: Callback) {
    !callback.throws && AbortNow !in callback.interrupts
  }

  predicate AllPass(setup: Setup) {
    Passes(setup.createWorker) && Passes(setup.setTimeout) && Passes(setup.getWasiRef) && Passes(setup.postMessage)
  }

  predicate SomethingThrows(setup: Setup) {
    setup.createWorker.throws || setup.setTimeout.throws || setup.getWasiRef.throws || setup.postMessage.throws
  }

  /** No result arrives either while the worker is being set up. */
  predicate NothingHappensIn(setup: Setup) {
    && AllPass(setup)
    && setup.setTimeout.interrupts == [] && setup.getWasiRef.interrupts == [] && setup.postMessage.interrupts == []
  }

  datatype Reply = Threw | Answer(id: Id, metadata: Metadata) | Chunk(bytes: Bytes) | Nothing

  datatype Event =
    | Starting(moduleLength: int, listsOk: bool, snapshotOk: bool, setTimeout: Callback)
    | Writing(id: Id, chunk: Option<Bytes>, setTimeout: Callback)
    | RunningModule(id: Id, setup: Setup)
    | ReadingError(id: Id, chunkLength: int)
    | Recovering
    | Ending(id: Id)
    | UploadTimer(id: Id)
    | WorkerResulting(id: Id, timedOut: bool, result: WorkerResult)
    | Returning(id: Id)
    | Aborting
    | Disposing

  /** Whatever has happened: what the invariant says about every request and every module that was posted. */
  lemma WhatTheInvariantMeans(o: Owner)
    requires Good(o, None)
    ensures forall i, j | 0 <= i < j < |o.settled| :: o.settled[i] != o.settled[j]
    ensures forall id | id in o.requests && o.slot != Some(id) ::
      var r := o.requests[id];
      (r.restored || (r.phase.Done? && r.result.value.graceful)) && r.run != Open && !r.timer && !r.worker
    ensures forall i | 0 <= i < |o.posts| ::
      var p := o.posts[i];
      && p.id in o.requests && p.content == o.requests[p.id].accepted && |p.content| == o.requests[p.id].expected
      && (p.alive ==> p.live)
    ensures forall id | id in o.requests && o.requests[id].phase.Done? ::
      var r := o.requests[id];
      && r.result.Some? && IsReport(r.errorBytes, r.result.value.error) && r.given <= r.result.value.error
      && r.run == Settled(Some(Metadata(Done, r.result.value.status, |r.errorBytes|)))
    ensures forall id | id in o.requests && !o.requests[id].phase.Done? && o.requests[id].run.Settled? ::
      o.requests[id].run.answer.None?
  {
    forall id | id in o.requests ensures GoodReport(o.requests[id]) { PartsOf(o, id, None); }
    forall id | id in o.requests && o.slot != Some(id)
      ensures var r := o.requests[id];
        (r.restored || (r.phase.Done? && r.result.value.graceful)) && r.run != Open && !r.timer && !r.worker
    {
      PartsOf(o, id, None);
    }
    forall i | 0 <= i < |o.posts| ensures GoodPost(o, o.posts[i]) {}
  }

  // ---------- steps in which the invariant is broken for a moment ----------

  lemma TimerSetTooLate(o: Owner, id: Id)
    requires id in o.requests && !o.requests[id].phase.Done?
    ensures AbortedRequest(Updated(o, id, o.requests[id].(timer := true), false, false), id, false) ==
            AbortedRequest(o, id, false)
  {
    var r := o.requests[id];
    assert CleanedUp(r.(timer := true), false) == CleanedUp(r, false);
    assert o.requests[id := r.(timer := true)][id := Answered(Restored(CleanedUp(r, false)), None)]
        == o.requests[id := Answered(Restored(CleanedUp(r, false)), None)];
  }

  /** The next id holds the slot with nothing uploaded. */
  function Begun(o: Owner, expected: nat): Owner {
    o.(slot := Some(o.nextId), requests := o.requests[o.nextId := NewRequest(expected)],
       children := o.children + {o.nextId}, nextId := o.nextId + 1)
  }

  lemma StartIsGood(o: Owner, expected: nat)
    requires Good(o, None) && o.slot == None
    ensures o.nextId !in o.requests
    ensures var p := Begun(o, expected);
      Good(p, None) && IsLive(p, o.nextId) && forall other | other != o.nextId :: IsLive(p, other) ==> IsLive(o, other)
  {
    var id := o.nextId;
    var p := Begun(o, expected);
    assert forall k | k in o.requests :: GoodRequest(o, k, None);
    assert id !in o.requests;
    forall other | other in p.requests && other != id
      ensures GoodRequest(p, other, None) && IsLive(p, other) == IsLive(o, other)
    {
      assert GoodRequest(o, other, None);
    }
    assert GoodRequest(p, id, None);
    forall i | 0 <= i < |p.posts| ensures GoodPost(p, p.posts[i]) { assert GoodPost(o, o.posts[i]); }
  }

  lemma NewRequestIs(expected: nat)
    ensures var r := NewRequest(expected).(timer := true);
            && MetadataOf(r) == Metadata(Uploading, 0, 0) && r.expected == expected && r.accepted == []
            && r.phase.Uploading?
  {
  }

  /** How far the request had come; of a finished one its status, and how much error text there is. */
  predicate TellsHowItWent(r: Request, metadata: Metadata) {
    metadata ==
      if r.result.Some? then Metadata(Done, r.result.value.status, |r.errorBytes|) else Metadata(r.phase, 0, 0)
  }

  lemma MetadataTells(o: Owner, id: Id)
    requires Good(o, None) && id in o.requests
    ensures var r := o.requests[id];
      TellsHowItWent(r, if r.recovery.Some? then r.recovery.value else MetadataOf(r))
  {
    PartsOf(o, id, None);
  }

  /** What was posted and what was settled stays on record, and requests are only added. */
  ghost predicate LogsGrow(o: Owner, p: Owner) {
    && o.settled <= p.settled && o.posts <= p.posts && o.requests.Keys <= p.requests.Keys
    && forall id | id in o.requests :: LogGrows(o.requests[id], p.requests[id])
  }

  /** More has been read of the error text, and the result of a finished run does not change. */
  predicate LogGrows(r: Request, s: Request) {
    r.given <= s.given && (r.phase.Done? ==> s.phase.Done? && s.result == r.result && s.errorBytes == r.errorBytes)
  }

  lemma SameLogs(o: Owner)
    ensures LogsGrow(o, o)
  {
  }

  lemma EndedLog(r: Request, acquired: bool)
    ensures LogGrows(r, FinalizedRecord(r, acquired))
    ensures LogGrows(r, Answered(Restored(CleanedUp(r, acquired)), None))
  {
  }

  lemma UpdatedLogs(o: Owner, id: Id, r: Request, leaves: bool, forgets: bool)
    requires id in o.requests && LogGrows(o.requests[id], r)
    ensures LogsGrow(o, Updated(o, id, r, leaves, forgets))
  {
  }

  lemma PostedLogs(o: Owner, post: Post)
    ensures LogsGrow(o, o) && LogsGrow(o, o.(posts := o.posts + [post]))
  {
  }

  lemma RecordLogs(o: Owner, id: Id, r: Request)
    requires id in o.requests && LogGrows(o.requests[id], r)
    ensures LogsGrow(o, o.(requests := o.requests[id := r]))
  {
  }

  lemma AbortedLogs(o: Owner, id: Id, acquired: bool)
    requires id in o.requests
    ensures LogsGrow(o, AbortedRequest(o, id, acquired))
  {
    hide LogsGrow, LogGrows, CleanedUp, Restored, Answered, FinalizedRecord, IsClean, Updated;
    EndedLog(o.requests[id], acquired);
    var c, f := Restored(CleanedUp(o.requests[id], acquired)), FinalizedRecord(o.requests[id], acquired);
    UpdatedLogs(o, id, f, false, IsClean(f));
    UpdatedLogs(o, id, Answered(c, None), true, !c.run.Open? && IsClean(c));
  }

  lemma CompletedLogs(o: Owner, id: Id, result: WorkerResult)
    requires id in o.requests
    ensures LogsGrow(o, Completed(o, id, result))
  {
    SameLogs(o);
    hide LogsGrow;
    if o.requests[id].phase.Running? { UpdatedLogs(o, id, CompletedRecord(o.requests[id], result), false, false); }
  }

  lemma LogsGrowFurther(o: Owner, p: Owner, q: Owner)
    requires LogsGrow(o, p) && LogsGrow(p, q)
    ensures LogsGrow(o, q)
  {
  }

  // ---------- what interruptions leave alone ----------

  predicate SameSetupRecord(r: Request, s: Request) {
    && s.workerSetup == r.workerSetup && (s.worker ==> r.worker) && (r.worker && r.workerSetup ==> s.worker)
    && s.accepted == r.accepted && s.expected == r.expected && s.uploaded == r.uploaded && s.recovery == r.recovery
  }

  /**
   * Interruptions end requests, and leave the rest of a request and the worker being set up alone.  Only a worker with
   * listeners can bring a run to its end.
   */
  ghost predicate Interrupted(o: Owner, p: Owner, id: Id, listening: bool) {
    && p.requests.Keys == o.requests.Keys && p.posts == o.posts && p.nextId == o.nextId && (o.aborted ==> p.aborted)
    && (p.slot == o.slot || p.slot == None) && LogsGrow(o, p) && id in o.requests
    && var r, s := o.requests[id], p.requests[id];
       && SameSetupRecord(r, s)
       && (s.phase == r.phase || (listening && r.phase.Running? && s.phase.Done?))
       && (IsLive(o, id) ==> IsLive(p, id) || p.aborted || s.phase.Done?)
  }

  lemma InterruptedFurther(o: Owner, p: Owner, q: Owner, id: Id, listening: bool)
    requires Interrupted(o, p, id, listening) && Interrupted(p, q, id, listening)
    ensures Interrupted(o, q, id, listening)
  {
  }

  lemma NotInterrupted(o: Owner, id: Id, listening: bool)
    requires id in o.requests
    ensures Interrupted(o, o, id, listening)
  {
  }

  lemma InterruptedAnyway(o: Owner, p: Owner, id: Id, listening: bool)
    requires Interrupted(o, p, id, false)
    ensures Interrupted(o, p, id, listening)
  {
  }

  lemma AbortingInterrupts(o: Owner, k: Id, id: Id)
    requires k in o.requests && id in o.requests && o.aborted
    ensures Interrupted(o, AbortedRequest(o, k, false), id, false)
  {
    EndedRecord(o.requests[k]);
    AbortedLogs(o, k, false);
    hide LogsGrow, FinalizedRecord, Answered, Restored, CleanedUp, IsClean;
  }

  lemma CleanupKeepsRun(r: Request, acquired: bool)
    ensures CleanedUp(r, acquired).run == r.run && CleanedUp(r, acquired).phase == r.phase
  {
  }

  lemma EndedRecord(r: Request)
    ensures SameSetupRecord(r, FinalizedRecord(r, false)) && FinalizedRecord(r, false).phase == r.phase
    ensures var s := Answered(Restored(CleanedUp(r, false)), None); SameSetupRecord(r, s) && s.phase == r.phase
  {
  }

  lemma CompletedSetupRecord(r: Request, result: WorkerResult)
    ensures SameSetupRecord(r, CompletedRecord(r, result)) && CompletedRecord(r, result).phase.Done?
  {
  }

  lemma CompletingInterrupts(o: Owner, k: Id, result: WorkerResult, id: Id)
    requires k in o.requests && id in o.requests
    ensures Interrupted(o, Completed(o, k, result), id, true)
  {
    CompletedSetupRecord(o.requests[k], result);
    CompletedLogs(o, k, result);
    hide LogsGrow, CompletedRecord;
  }

  lemma AbortFlagIsGood(o: Owner, setup: Option<Id>)
    requires Good(o, setup)
    ensures Good(o.(aborted := true), setup) && forall id :: IsLive(o.(aborted := true), id) == IsLive(o, id)
  {
    var p := o.(aborted := true);
    forall id | id in p.requests ensures GoodRequest(p, id, setup) { assert GoodRequest(o, id, setup); }
    forall i | 0 <= i < |p.posts| ensures GoodPost(p, p.posts[i]) { assert GoodPost(o, o.posts[i]); }
  }

  lemma FlagInterrupts(o: Owner, id: Id)
    requires id in o.requests
    ensures Interrupted(o, o.(aborted := true), id, false)
  {
  }

  lemma ChildrenAreRequests(o: Owner, id: Id, setup: Option<Id>)
    requires Good(o, setup) && id in o.children
    ensures id in o.requests && (o.requests[id].phase.Uploading? ==> !o.requests[id].worker)
  {
    assert GoodRequest(o, id, setup);
  }

  lemma KeysStay(o: Owner, p: Owner, id: Id, listening: bool)
    requires Interrupted(o, p, id, listening)
    ensures id in p.requests && p.requests.Keys == o.requests.Keys && p.nextId == o.nextId && p.posts == o.posts
    ensures LogsGrow(o, p)
  {
  }

  lemma AbortingKeepsCounters(o: Owner, id: Id)
    requires id in o.requests
    ensures var p := AbortedRequest(o, id, false); p.aborted == o.aborted && p.nextId == o.nextId && LogsGrow(o, p)
  {
    AbortedLogs(o, id, false);
    hide LogsGrow;
  }

  lemma CompletingKeepsCounters(o: Owner, id: Id, result: WorkerResult)
    requires id in o.requests
    ensures var p := Completed(o, id, result); p.aborted == o.aborted
  {
  }

  lemma CallSpelledOut(o: Owner, p: Owner, id: Id)
    requires Interrupted(o, p, id, false)
    ensures p.requests.Keys == o.requests.Keys && p.nextId == o.nextId
    ensures p.posts == o.posts && (o.aborted ==> p.aborted)
    ensures (p.slot == o.slot || p.slot == None) && LogsGrow(o, p)
    ensures var r, s := o.requests[id], p.requests[id];
      && s.accepted == r.accepted && s.expected == r.expected && s.uploaded == r.uploaded
      && s.phase == r.phase && s.recovery == r.recovery
      && (IsLive(o, id) ==> IsLive(p, id) || p.aborted || s.phase.Done?)
  {
  }

  lemma TimerIsNotPartOfIt(r: Request, timer: bool)
    requires GoodUpload(r) && GoodReport(r) && GoodEnd(r, true, false)
    ensures var s := r.(timer := timer);
      && GoodUpload(s) && GoodReport(s) && GoodEnd(s, true, false) && Succeeds(r, s)
  {
  }

  lemma ClearingInterrupts(o: Owner, id: Id)
    requires IsLive(o, id)
    ensures Interrupted(o, o.(requests := o.requests[id := o.requests[id].(timer := false)]), id, false)
  {
    var p := o.(requests := o.requests[id := o.requests[id].(timer := false)]);
    assert LogsGrow(o, p);
  }

  lemma ClearingIsGood(o: Owner, id: Id)
    requires Good(o, None) && IsLive(o, id)
    ensures var p := o.(requests := o.requests[id := o.requests[id].(timer := false)]);
      && Good(p, None) && IsLive(p, id) && Interrupted(o, p, id, false)
      && forall other :: IsLive(p, other) ==> IsLive(o, other)
  {
    PartsOf(o, id, None);
    TimerIsNotPartOfIt(o.requests[id], false);
    ClearingInterrupts(o, id);
    hide Good, GoodUpload, GoodReport, GoodEnd, Succeeds, Interrupted;
    UpdatedIsGood(o, id, o.requests[id].(timer := false), false, false, None, None);
  }

  lemma TimerIsGood(o: Owner, id: Id)
    requires Good(o, None) && IsLive(o, id)
    ensures var p := o.(requests := o.requests[id := o.requests[id].(timer := true)]);
      Good(p, None) && IsLive(p, id) && forall other :: IsLive(p, other) ==> IsLive(o, other)
  {
    PartsOf(o, id, None);
    TimerIsNotPartOfIt(o.requests[id], true);
    hide Good, GoodUpload, GoodReport, GoodEnd, Succeeds;
    UpdatedIsGood(o, id, o.requests[id].(timer := true), false, false, None, None);
  }

  predicate SameUpload(r: Request, s: Request) {
    && s.accepted == r.accepted && s.expected == r.expected && s.uploaded == r.uploaded
    && s.phase == r.phase && s.recovery == r.recovery
  }

  lemma SameUploadFurther(r: Request, s: Request, t: Request)
    requires SameUpload(r, s) && SameUpload(s, t)
    ensures SameUpload(r, t)
  {
  }

  lemma UploadStays(r: Request, s: Request)
    requires SameUpload(r, s)
    ensures s.phase == r.phase && s.recovery == r.recovery
  {
  }

  lemma TimerSetAgain(o: Owner, p: Owner, id: Id)
    requires id in o.requests && p == o.(requests := o.requests[id := o.requests[id].(timer := false)])
    ensures SameUpload(o.requests[id], o.requests[id].(timer := true))
    ensures p.(requests := p.requests[id := p.requests[id].(timer := true)]) ==
            o.(requests := o.requests[id := o.requests[id].(timer := true)])
  {
    assert p.requests[id := p.requests[id].(timer := true)] == o.requests[id := o.requests[id].(timer := true)];
  }

  /** An upload that cannot go on leaves the slot free. */
  lemma EndingUpload(o: Owner, id: Id)
    requires Good(o, None) && AbortIsFinal(o) && id in o.requests && o.requests[id].phase.Uploading?
    requires o.requests[id].recovery.None? && (o.slot == Some(id) || o.slot == None)
    ensures var p := AbortedRequest(o, id, false);
      && Good(p, None) && AbortIsFinal(p) && p.slot == None && p.requests.Keys == o.requests.Keys
      && p.nextId == o.nextId
      && SameUpload(o.requests[id], p.requests[id]) && LogsGrow(o, p)
  {
    AbortedIsGood(o, id, false, None);
    AbortedLogs(o, id, false);
    hide Good, LogsGrow;
  }

  lemma SlotHolds(o: Owner, id: Id)
    requires Good(o, None) && o.slot == Some(id)
    ensures id in o.requests
    ensures o.requests[id].errorOffset <= |o.requests[id].errorBytes|
  {
    assert GoodRequest(o, id, None);
  }

  lemma HolderIsLive(o: Owner, id: Id)
    requires id in o.requests && o.slot == Some(id)
    ensures IsLive(o, id) <==> !o.requests[id].phase.Done? && o.requests[id].recovery.None?
  {
  }

  /** A live request that still takes chunks. */
  predicate IsUpload(o: Owner, id: Id) {
    IsLive(o, id) && o.requests[id].phase.Uploading?
  }

  predicate Fits(r: Request, chunk: Option<Bytes>) {
    && chunk.Some? && 0 < |chunk.value| <= MAX_MODULE_CHUNK_BYTES
    && |chunk.value| <= r.expected - r.uploaded
  }

  lemma UploadSpelledOut(o: Owner, id: Id)
    requires AbortIsFinal(o)
    ensures IsUpload(o, id) <==>
      && !o.aborted && o.slot == Some(id) && id in o.requests
      && o.requests[id].phase.Uploading? && o.requests[id].recovery.None?
  {
  }

  function WithChunk(r: Request, chunk: Bytes): Request
    requires r.uploaded + |chunk| <= |r.module_|
  {
    r.(module_ := r.module_[..r.uploaded] + chunk + r.module_[r.uploaded + |chunk|..],
       uploaded := r.uploaded + |chunk|,
       accepted := r.accepted + chunk)
  }

  lemma ChunkIsGood(o: Owner, id: Id, chunk: Bytes)
    requires Good(o, None) && IsLive(o, id) && o.requests[id].phase.Uploading?
    requires |chunk| <= o.requests[id].expected - o.requests[id].uploaded
    ensures o.requests[id].uploaded + |chunk| <= |o.requests[id].module_|
    ensures var p := o.(requests := o.requests[id := WithChunk(o.requests[id], chunk)]);
      Good(p, None) && IsLive(p, id) && forall other :: IsLive(p, other) ==> IsLive(o, other)
  {
    PartsOf(o, id, None);
    hide Good;
    var r, s := o.requests[id], WithChunk(o.requests[id], chunk);
    assert s.module_[..s.uploaded] == r.module_[..r.uploaded] + chunk;
    UpdatedIsGood(o, id, s, false, false, None, None);
  }

  function ReadOn(r: Request, n: nat): Request
    requires r.errorOffset + n <= |r.errorBytes|
  {
    r.(errorOffset := r.errorOffset + n, given := r.given + r.errorBytes[r.errorOffset..r.errorOffset + n])
  }

  lemma ReadFromReport(o: Owner, id: Id, n: nat)
    requires Good(o, None) && id in o.requests && Readable(o.requests[id], n)
    ensures var r := o.requests[id];
      && r.errorOffset + n <= |r.errorBytes| && r.result.Some? && ReadOn(r, n).given <= r.result.value.error
      && LogGrows(r, ReadOn(r, n))
  {
    PartsOf(o, id, None);
    ReadsOn(o.requests[id].errorBytes, o.requests[id].errorOffset, n);
  }

  lemma ReadingIsGood(o: Owner, id: Id, n: nat)
    requires Good(o, None) && id in o.requests && o.requests[id].phase.Done?
    requires o.requests[id].errorOffset + n <= |o.requests[id].errorBytes|
    ensures var r := o.requests[id];
      var p := o.(requests := o.requests[id := ReadOn(r, n)]);
      Good(p, None) && forall other :: IsLive(p, other) ==> IsLive(o, other)
  {
    PartsOf(o, id, None);
    hide Good;
    ReadsOn(o.requests[id].errorBytes, o.requests[id].errorOffset, n);
    UpdatedIsGood(o, id, ReadOn(o.requests[id], n), false, false, None, None);
  }

  lemma ClearingAnyIsGood(o: Owner, id: Id)
    requires Good(o, None) && id in o.requests
    ensures var p := o.(requests := o.requests[id := o.requests[id].(timer := false)]);
      Good(p, None) && forall other :: IsLive(p, other) == IsLive(o, other)
  {
    PartsOf(o, id, None);
    hide Good;
    UpdatedIsGood(o, id, o.requests[id].(timer := false), false, false, None, None);
  }

  /** So much of the error text of a finished request is still to be read. */
  predicate Readable(r: Request, n: int) {
    r.phase.Done? && 0 <= n <= MAX_ERROR_CHUNK_BYTES && n <= |r.errorBytes| - r.errorOffset
  }

  lemma ReadsOn(text: Bytes, offset: nat, n: nat)
    requires offset + n <= |text|
    ensures text[..offset + n] == text[..offset] + text[offset..offset + n]
  {
  }

  /** A request that is over or recovered may leave the slot as it is. */
  lemma LeavingIsGood(o: Owner, id: Id)
    requires Good(o, None) && o.slot == Some(id) && id in o.requests && !IsLive(o, id)
    ensures CleanedUp(o.requests[id], false) == o.requests[id] && o.requests[id := o.requests[id]] == o.requests
    ensures Good(o.(slot := None), None) && Good(o.(slot := None, children := o.children - {id}), None)
    ensures forall other :: !IsLive(o.(slot := None), other)
  {
    PartsOf(o, id, None);
    hide Good;
    UpdatedIsGood(o, id, o.requests[id], true, false, None, None);
    UpdatedIsGood(o, id, o.requests[id], true, true, None, None);
  }

  lemma ForgettingIsGood(o: Owner, id: Id)
    requires Good(o, None) && id in o.requests && o.requests[id].run.Settled?
    ensures Good(o.(children := o.children - {id}), None)
    ensures forall other :: IsLive(o.(children := o.children - {id}), other) == IsLive(o, other)
  {
    PartsOf(o, id, None);
    hide Good;
    assert o.requests[id := o.requests[id]] == o.requests;
    UpdatedIsGood(o, id, o.requests[id], false, true, None, None);
  }

  lemma SlotClearedIsGood(o: Owner)
    requires Good(o, None) && forall id :: !IsLive(o, id)
    ensures Good(o.(slot := None), None)
    ensures forall id | id in o.requests ::
      o.requests[id].run != Open && !o.requests[id].timer && !o.requests[id].worker
  {
    if o.slot.Some? { LeavingIsGood(o, o.slot.value); } else { assert o.(slot := None) == o; }
    forall id | id in o.requests ensures o.requests[id].run != Open && !o.requests[id].timer && !o.requests[id].worker {
      PartsOf(o, id, None);
    }
  }

  // ---------- setting up a worker ----------

  /**
   * The worker of a running request is being set up; only an abort or a result can have ended the request meanwhile.
   */
  ghost predicate SettingUp(o: Owner, id: Id, content: Bytes) {
    && Good(o, Some(id)) && AbortIsFinal(o) && id in o.requests
    && (o.slot == Some(id) || o.slot == None)
    && var r := o.requests[id];
       && r.worker && r.workerSetup && !r.phase.Uploading? && r.recovery.None?
       && r.accepted == content && |content| == r.expected
       && (r.phase.Running? ==> IsLive(o, id) || o.aborted)
  }

  function AsRunning(r: Request): Request {
    r.(timer := false, module_ := [], phase := Running, run := Open)
  }

  /** A worker that lives, and the time it has. */
  predicate HasWorker(r: Request) {
    r.worker && !r.workerTerminated && !r.workerSetup && r.timer
  }

  function WithWorker(r: Request): Request {
    r.(worker := true, workerSetup := true, workerTerminated := false)
  }

  lemma RunningIsGood(o: Owner, id: Id)
    requires Good(o, None) && AbortIsFinal(o) && IsLive(o, id) && o.requests[id].phase.Uploading?
    requires o.requests[id].uploaded == o.requests[id].expected
    ensures o.requests[id].module_ == o.requests[id].accepted && |o.requests[id].accepted| == o.requests[id].expected
    ensures var p := o.(requests := o.requests[id := AsRunning(o.requests[id])]);
      Good(p, None) && AbortIsFinal(p) && IsLive(p, id)
  {
    PartsOf(o, id, None);
    hide Good;
    var r := o.requests[id];
    assert r.module_[..r.uploaded] == r.module_;
    UpdatedIsGood(o, id, AsRunning(r), false, false, None, None);
  }

  /** The new worker, or its end if the owner was aborted while it was created. */
  lemma WorkerIsAcquired(o: Owner, id: Id, content: Bytes)
    requires Good(o, None) && AbortIsFinal(o) && id in o.requests && o.requests[id].phase.Running?
    requires o.requests[id].recovery.None? && o.requests[id].accepted == content && |content| == o.requests[id].expected
    requires (IsLive(o, id) || o.aborted) && (o.slot == Some(id) || o.slot == None)
    ensures var p := o.(requests := o.requests[id := WithWorker(o.requests[id])]);
      SettingUp(if o.aborted then AbortedRequest(p, id, true) else p, id, content)
  {
    PartsOf(o, id, None);
    hide Good;
    var w := WithWorker(o.requests[id]);
    if o.aborted {
      var r := Restored(CleanedUp(w, true));
      UpdatedIsGood(o, id, Answered(r, None), true, !r.run.Open? && IsClean(r), None, Some(id));
      assert o.requests[id := w][id := Answered(r, None)] == o.requests[id := Answered(r, None)];
    } else {
      UpdatedIsGood(o, id, w, false, false, None, Some(id));
    }
  }

  lemma SetupSpelledOut(o: Owner, id: Id, content: Bytes)
    requires SettingUp(o, id, content)
    ensures Good(o, Some(id)) && AbortIsFinal(o) && id in o.requests && !o.requests[id].phase.Uploading?
    ensures o.slot == Some(id) || o.slot == None
    ensures o.requests[id].phase.Running? && !o.aborted ==> IsLive(o, id)
  {
  }

  lemma InterruptionInSetup(o: Owner, p: Owner, id: Id, content: Bytes)
    requires SettingUp(o, id, content) && Good(p, Some(id)) && AbortIsFinal(p) && Interrupted(o, p, id, true)
    ensures SettingUp(p, id, content)
  {
    hide Good;
  }

  lemma TimerInSetup(o: Owner, id: Id, content: Bytes)
    requires SettingUp(o, id, content)
    ensures SettingUp(o.(requests := o.requests[id := o.requests[id].(timer := true)]), id, content)
  {
    PartsOf(o, id, Some(id));
    hide Good;
    UpdatedIsGood(o, id, o.requests[id].(timer := true), false, false, Some(id), Some(id));
  }

  lemma AbortInSetup(o: Owner, id: Id, content: Bytes)
    requires SettingUp(o, id, content) && o.aborted
    ensures SettingUp(AbortedRequest(o, id, true), id, content)
  {
    AbortedIsGood(o, id, true, Some(id));
    hide Good;
  }

  /** A setup that failed: the request is over. */
  lemma FailedSetup(o: Owner, id: Id, content: Bytes)
    requires SettingUp(o, id, content)
    ensures var p := AbortedRequest(o, id, true);
      Good(p, Some(id)) && AbortIsFinal(p) && !IsLive(p, id) && id in p.requests && !p.requests[id].phase.Uploading?
  {
    AbortedIsGood(o, id, true, Some(id));
    hide Good;
  }

  function PostOf(o: Owner, id: Id, content: Bytes): Post
    requires id in o.requests
  {
    Post(id, content, !o.requests[id].workerTerminated, IsLive(o, id))
  }

  /**
   * Whoever gets a module gets all that was accepted, and a worker that is alive gets it from a request that is live.
   */
  lemma PostingIsGood(o: Owner, id: Id, content: Bytes)
    requires SettingUp(o, id, content)
    ensures SettingUp(o.(posts := o.posts + [PostOf(o, id, content)]), id, content)
  {
    PartsOf(o, id, Some(id));
    var p := o.(posts := o.posts + [PostOf(o, id, content)]);
    forall k | k in p.requests ensures GoodRequest(p, k, Some(id)) { assert GoodRequest(o, k, Some(id)); }
    forall i | 0 <= i < |p.posts| ensures GoodPost(p, p.posts[i]) {
      if i < |o.posts| { assert GoodPost(o, o.posts[i]); }
    }
  }

  /** The request after its setup. */
  function Finished(o: Owner, id: Id, ok: bool): Owner
    requires id in o.requests
  {
    var r := o.requests[id].(workerSetup := false);
    if r.phase.Done? then Updated(o, id, FinalizedRecord(r, true), false, IsClean(FinalizedRecord(r, true)))
    else if ok then Updated(o, id, r, false, false)
    else Updated(o, id, CleanedUp(r, true), false, IsClean(CleanedUp(r, true)) && o.slot != Some(id))
  }

  lemma FinishedSpelledOut(o: Owner, id: Id, ok: bool)
    requires id in o.requests
    ensures var p := Finished(o, id, ok);
      && p.requests.Keys == o.requests.Keys && p.nextId == o.nextId && p.posts == o.posts
      && p.requests[id].phase == o.requests[id].phase && (IsLive(p, id) <==> IsLive(o, id)) && LogsGrow(o, p)
      && (ok && IsLive(o, id) ==> p.requests[id] == o.requests[id].(workerSetup := false))
  {
    FinishedLogs(o, id, ok);
    hide LogsGrow;
  }

  lemma FinishedLogs(o: Owner, id: Id, ok: bool)
    requires id in o.requests
    ensures LogsGrow(o, Finished(o, id, ok))
  {
    var r := o.requests[id].(workerSetup := false);
    EndedLog(r, true);
    hide LogsGrow, FinalizedRecord, CleanedUp, IsClean;
    CleanedLog(r);
    UpdatedLogs(o, id, FinalizedRecord(r, true), false, IsClean(FinalizedRecord(r, true)));
    UpdatedLogs(o, id, r, false, false);
    UpdatedLogs(o, id, CleanedUp(r, true), false, IsClean(CleanedUp(r, true)) && o.slot != Some(id));
  }

  lemma CleanedLog(r: Request)
    ensures LogGrows(r, CleanedUp(r, true))
  {
  }

  lemma FinishedIsGood(o: Owner, id: Id, ok: bool)
    requires Good(o, Some(id)) && AbortIsFinal(o) && id in o.requests && !o.requests[id].phase.Uploading?
    requires !o.requests[id].phase.Done? ==> (ok <==> IsLive(o, id))
    ensures Good(Finished(o, id, ok), None) && AbortIsFinal(Finished(o, id, ok))
  {
    PartsOf(o, id, Some(id));
    hide Good;
    var r := o.requests[id].(workerSetup := false);
    if r.phase.Done? {
      UpdatedIsGood(o, id, FinalizedRecord(r, true), false, IsClean(FinalizedRecord(r, true)), Some(id), None);
    } else if ok {
      UpdatedIsGood(o, id, r, false, false, Some(id), None);
    } else {
      var c := CleanedUp(r, true);
      UpdatedIsGood(o, id, c, false, IsClean(c) && o.slot != Some(id), Some(id), None);
    }
  }

  lemma AbortingSpelledOut(o: Owner, id: Id, acquired: bool)
    requires id in o.requests && (o.slot == Some(id) || o.slot == None)
    ensures var p := AbortedRequest(o, id, acquired);
      && p.requests.Keys == o.requests.Keys && p.nextId == o.nextId && p.posts == o.posts
      && (p.slot == None || (p.slot == o.slot && o.requests[id].phase.Done?))
      && p.requests[id].phase == o.requests[id].phase && LogsGrow(o, p)
  {
    AbortedLogs(o, id, acquired);
    hide LogsGrow;
  }

  lemma LiveIsChild(o: Owner, id: Id, setup: Option<Id>)
    requires Good(o, setup)
    ensures IsLive(o, id) ==> id in o.children && id < o.nextId
  {
    if id in o.requests { assert GoodRequest(o, id, setup); }
  }

  class ChildProcessBridgeOwner {
    var slot: Option<Id>
    var requests: map<Id, Request>
    var children: set<Id>
    var nextId: Id
    var aborted: bool
    /** The modules posted so far, and the runs settled so far in that order. */
    ghost var posts: seq<Post>
    ghost var settled: seq<Id>

    ghost function Now(): Owner
      reads this
    {
      Owner(slot, requests, children, nextId, aborted, posts, settled)
    }

    ghost predicate Valid()
      reads this
    {
      Good(Now(), None) && AbortIsFinal(Now())
    }

    constructor ()
      ensures Valid() && slot == None && nextId == 1 && !aborted && posts == [] && settled == []
    {
      slot, requests, children, nextId, aborted, posts, settled := None, map[], {}, 1, false, [], [];
    }

    // ---------- the steps of cleanup ----------

    method Restore(id: Id)
      requires id in requests
      modifies this`requests
      ensures requests == old(requests)[id := Restored(old(requests)[id])]
    {
      requests := requests[id := requests[id].(restoreRequired := true)];
      if requests[id].restored { return; }
      requests := requests[id := requests[id].(restored := true)];
    }

    method CleanupResources(id: Id, acquired: bool)
      requires id in requests
      modifies this`requests
      ensures requests == old(requests)[id := CleanedUp(old(requests)[id], acquired)]
    {
      if acquired { requests := requests[id := requests[id].(worker := true)]; }
      requests := requests[id := requests[id].(timer := false)];
      if !requests[id].worker { return; }
      requests := requests[id := requests[id].(workerTerminated := true)];
      if !requests[id].workerSetup { requests := requests[id := requests[id].(worker := false)]; }
    }

    /** Settles the run of a request at most once. */
    method Answer(id: Id, answer: Option<Metadata>) returns (answered: bool)
      requires id in requests
      modifies this`requests, this`settled
      ensures answered == old(requests)[id].run.Open?
      ensures requests == old(requests)[id := Answered(old(requests)[id], answer)]
      ensures settled == if answered then old(settled) + [id] else old(settled)
    {
      answered := requests[id].run.Open?;
      if answered {
        requests := requests[id := requests[id].(run := Settled(answer))];
        settled := settled + [id];
      } else {
        assert requests == requests[id := requests[id]];
      }
    }

    method FinalizeTerminalRequest(id: Id, acquired: bool)
      requires id in requests
      modifies this`requests, this`children
      ensures Now() == Finalized(old(Now()), id, acquired)
    {
      hide IsClean, MetadataOf;
      CleanupResources(id, acquired);
      if requests[id].restoreRequired && !requests[id].restored { Restore(id); }
      if IsClean(requests[id]) { children := children - {id}; }
    }

    method AbortRequest(id: Id, acquired: bool)
      requires id in requests
      modifies this`requests, this`children, this`slot, this`settled
      ensures Now() == AbortedRequest(old(Now()), id, acquired)
    {
      hide IsClean, MetadataOf, CleanedUp;
      if requests[id].phase.Done? {
        FinalizeTerminalRequest(id, acquired);
        return;
      }
      CleanupKeepsRun(requests[id], acquired);
      CleanupResources(id, acquired);
      Restore(id);
      if slot == Some(id) { slot := None; }
      var answered := Answer(id, None);
      if !answered && IsClean(requests[id]) { children := children - {id}; }
    }

    /** Aborts every child, in the order they were started; afterwards none is live. */
    method Abort(ghost setup: Option<Id>)
      requires Good(Now(), setup)
      modifies this
      ensures Good(Now(), setup) && AbortIsFinal(Now()) && aborted
      ensures forall id | id in old(requests) :: Interrupted(old(Now()), Now(), id, false)
      ensures nextId == old(nextId)
      ensures LogsGrow(old(Now()), Now())
    {
      hide Good, IsLive, Interrupted, AbortedRequest;
      ghost var before := Now();
      AbortFlagIsGood(before, setup);
      aborted := true;
      forall id | id in before.requests ensures Interrupted(before, Now(), id, false) { FlagInterrupts(before, id); }
      for k := 0 to nextId
        invariant Good(Now(), setup) && aborted && nextId == before.nextId && LogsGrow(before, Now())
        invariant forall id | 0 <= id < k :: !IsLive(Now(), id)
        invariant forall id | id in before.requests :: Interrupted(before, Now(), id, false)
      {
        ghost var now := Now();
        LiveIsChild(now, k, setup);
        if k in children {
          ChildrenAreRequests(now, k, setup);
          AbortedIsGood(now, k, false, setup);
          AbortRequest(k, false);
          forall id | id in before.requests ensures Interrupted(before, Now(), id, false) {
            KeysStay(before, now, id, false);
            AbortingInterrupts(now, k, id);
            InterruptedFurther(before, now, Now(), id, false);
          }
          AbortingKeepsCounters(now, k);
        }
      }
      forall id ensures !IsLive(Now(), id) { LiveIsChild(Now(), id, setup); }
    }

    method Complete(id: Id, result: WorkerResult)
      requires id in requests
      modifies this`requests, this`settled
      ensures Now() == Completed(old(Now()), id, result)
    {
      hide IsClean, MetadataOf;
      if slot != Some(id) || !requests[id].phase.Running? || requests[id].recovery.Some? { return; }
      CleanupResources(id, false);
      if !result.graceful { Restore(id); }
      requests := requests[id := requests[id].(
        result := Some(result), errorBytes := Truncated(result.error), errorOffset := 0, phase := Done)];
      var _ := Answer(id, Some(MetadataOf(requests[id])));
    }

    method AbortActive(id: Id)
      requires id in requests && (slot == Some(id) || slot == None)
      modifies this`requests, this`children, this`slot, this`settled
      ensures Now() == AbortedActive(old(Now()), id)
    {
      hide IsClean, MetadataOf, CleanedUp;
      CleanupKeepsRun(requests[id], false);
      CleanupResources(id, false);
      Restore(id);
      slot := None;
      var answered := Answer(id, None);
      if !answered && IsClean(requests[id]) { children := children - {id}; }
    }

    method RetainActiveRecovery(id: Id)
      requires id in requests
      modifies this`requests, this`children, this`settled
      ensures Now() == RetainedRecovery(old(Now()), id)
    {
      hide IsClean, MetadataOf, CleanedUp;
      if requests[id].recovery.Some? { return; }
      requests := requests[id := requests[id].(recovery := Some(MetadataOf(requests[id])))];
      CleanupKeepsRun(requests[id], false);
      CleanupResources(id, false);
      Restore(id);
      var answered := Answer(id, None);
      if !answered && IsClean(requests[id]) { children := children - {id}; }
    }

    /**
     * A call into the environment, which may be interrupted by an abort or, once the worker has listeners, by its
     * result.
     */
    method Call(id: Id, callback: Callback, listening: bool, ghost setup: Option<Id>) returns (threw: bool)
      requires Good(Now(), setup) && AbortIsFinal(Now()) && id in requests
      modifies this
      ensures Good(Now(), setup) && AbortIsFinal(Now()) && Interrupted(old(Now()), Now(), id, listening)
      ensures threw == callback.throws && (aborted <==> old(aborted) || AbortNow in callback.interrupts)
      ensures AbortNow !in callback.interrupts && (!listening || callback.interrupts == []) ==> Now() == old(Now())
    {
      hide Good, IsLive, Interrupted, Completed;
      ghost var before := Now();
      NotInterrupted(before, id, listening);
      for i := 0 to |callback.interrupts|
        invariant Good(Now(), setup) && AbortIsFinal(Now())
        invariant Interrupted(before, Now(), id, listening) && id in requests
        invariant aborted <==> before.aborted || AbortNow in callback.interrupts[..i]
        invariant AbortNow !in callback.interrupts[..i] && (!listening || i == 0) ==> Now() == before
      {
        ghost var now := Now();
        assert callback.interrupts[..i + 1] == callback.interrupts[..i] + [callback.interrupts[i]];
        match callback.interrupts[i] {
          case AbortNow =>
            Abort(setup);
            InterruptedAnyway(now, Now(), id, listening);
          case ResultNow(result) =>
            NotInterrupted(now, id, listening);
            if listening {
              CompletedIsGood(now, id, result, setup);
              CompletingInterrupts(now, id, result, id);
              CompletingKeepsCounters(now, id, result);
              Complete(id, result);
            }
        }
        InterruptedFurther(before, now, Now(), id, listening);
        KeysStay(before, Now(), id, listening);
      }
      assert callback.interrupts[..|callback.interrupts|] == callback.interrupts;
      return callback.throws;
    }

    /** Aborts the request once more if the owner has been aborted; does not throw for one that is done. */
    method ThrowIfAborted(id: Id, acquired: bool) returns (threw: bool)
      requires id in requests
      modifies this`requests, this`children, this`slot, this`settled
      ensures Now() == if aborted then AbortedRequest(old(Now()), id, acquired) else old(Now())
      ensures threw <==> aborted && !old(requests)[id].phase.Done?
    {
      if !aborted { return false; }
      threw := !requests[id].phase.Done?;
      AbortRequest(id, acquired);
    }

    // ---------- messages ----------

    /** Starts the upload timer anew, or ends the request. */
    method RefreshUploadTimer(id: Id, setTimeout: Callback) returns (threw: bool)
      requires Valid() && IsLive(Now(), id) && requests[id].phase.Uploading?
      modifies this
      ensures Valid() && requests.Keys == old(requests.Keys) && nextId == old(nextId)
      ensures SameUpload(old(requests)[id], requests[id])
      ensures if threw then slot == None else IsLive(Now(), id) && requests[id].timer
      ensures threw <==> !Passes(setTimeout)
      ensures !threw ==>
        Now() == old(Now()).(requests := old(requests)[id := old(requests)[id].(timer := true)])
      ensures LogsGrow(old(Now()), Now())
    {
      hide Good, Interrupted, AbortedRequest, LogsGrow, IsLive, AbortIsFinal, SameUpload;
      ghost var before := Now();
      threw := RestartUploadTimer(id, setTimeout);
      ghost var called := Now();
      UploadSpelledOut(before, id);
      UploadStays(before.requests[id], called.requests[id]);
      EndingUpload(called, id);
      SameUploadFurther(before.requests[id], called.requests[id], AbortedRequest(called, id, false).requests[id]);
      if !aborted { TimerSetAgain(before, called, id); }
      LogsGrowFurther(before, called, AbortedRequest(called, id, false));
      if threw {
        AbortRequest(id, false);
        return true;
      }
      threw := SetUploadTimer(id);
      LogsGrowFurther(before, called, Now());
    }

    method RestartUploadTimer(id: Id, setTimeout: Callback) returns (threw: bool)
      requires Valid() && IsLive(Now(), id) && requests[id].phase.Uploading?
      modifies this
      ensures Valid() && requests.Keys == old(requests.Keys) && nextId == old(nextId)
      ensures SameUpload(old(requests)[id], requests[id]) && (slot == Some(id) || slot == None)
      ensures threw == setTimeout.throws && (aborted <==> AbortNow in setTimeout.interrupts)
      ensures !aborted ==>
        IsLive(Now(), id) && Now() == old(Now()).(requests := old(requests)[id := old(requests)[id].(timer := false)])
      ensures LogsGrow(old(Now()), Now())
    {
      hide Good, Interrupted, LogsGrow;
      ghost var before := Now();
      ClearingIsGood(before, id);
      requests := requests[id := requests[id].(timer := false)];
      ghost var cleared := Now();
      CallSpelledOut(before, cleared, id);
      threw := Call(id, setTimeout, false, None);
      CallSpelledOut(cleared, Now(), id);
      LogsGrowFurther(before, cleared, Now());
    }

    /** Notes the timer that was set, unless the owner was aborted meanwhile. */
    method SetUploadTimer(id: Id) returns (threw: bool)
      requires Good(Now(), None) && AbortIsFinal(Now()) && id in requests
      requires requests[id].phase.Uploading? && (IsLive(Now(), id) || aborted)
      modifies this`requests, this`children, this`slot, this`settled
      ensures threw == aborted && LogsGrow(old(Now()), Now())
      ensures if threw then Now() == AbortedRequest(old(Now()), id, false) else
        && Now() == old(Now()).(requests := old(requests)[id := old(requests)[id].(timer := true)])
        && Valid() && IsLive(Now(), id)
    {
      hide Good, AbortedRequest, LogsGrow;
      ghost var called := Now();
      if !aborted { TimerIsGood(called, id); }
      requests := requests[id := requests[id].(timer := true)];
      RecordLogs(called, id, requests[id]);
      if aborted {
        TimerSetTooLate(called, id);
        AbortedLogs(called, id, false);
      }
      threw := ThrowIfAborted(id, false);
    }

    /** Takes the slot, a new id and a snapshot of the file system. */
    method Start(moduleLength: int, listsOk: bool, snapshotOk: bool, setTimeout: Callback) returns (r: Reply)
      requires Valid()
      modifies this
      ensures Valid() && old(nextId) <= nextId <= old(nextId) + 1 && old(requests.Keys) <= requests.Keys
      ensures !(0 <= moduleLength <= MAX_MODULE_BYTES && listsOk && snapshotOk) ==> r == Threw && Now() == old(Now())
      ensures old(aborted) || old(slot).Some? || old(nextId) > U32_MAX ==> r == Threw && Now() == old(Now())
      ensures r.Answer? <==>
        && !old(aborted) && old(slot).None? && old(nextId) <= U32_MAX
        && 0 <= moduleLength <= MAX_MODULE_BYTES && listsOk && snapshotOk && Passes(setTimeout)
      ensures r != Threw ==> r.Answer? && r.id == old(nextId) && r.id + 1 == nextId && IsLive(Now(), r.id)
      ensures r.Answer? ==>
        && requests == old(requests)[r.id := NewRequest(moduleLength).(timer := true)]
        && posts == old(posts) && settled == old(settled) && r.metadata == Metadata(Uploading, 0, 0)
        && requests[r.id].expected == moduleLength && requests[r.id].accepted == [] && requests[r.id].phase.Uploading?
      ensures LogsGrow(old(Now()), Now())
    {
      if aborted || slot.Some? || nextId > U32_MAX { return Threw; }
      if moduleLength < 0 || moduleLength > MAX_MODULE_BYTES || !listsOk || !snapshotOk { return Threw; }
      hide Good, Interrupted, IsLive, AbortIsFinal, Passes, NewRequest, LogsGrow;
      ghost var before := Now();
      var id := TakeSlot(moduleLength);
      ghost var begun := Now();
      var threw := RefreshUploadTimer(id, setTimeout);
      LogsGrowFurther(before, begun, Now());
      assert !threw ==>
        requests == before.requests[id := NewRequest(moduleLength)][id := NewRequest(moduleLength).(timer := true)];
      NewRequestIs(moduleLength);
      assert !threw ==> requests[id] == NewRequest(moduleLength).(timer := true);
      return if threw then Threw else Reply.Answer(id, MetadataOf(requests[id]));
    }

    method TakeSlot(expected: nat) returns (id: Id)
      requires Valid() && slot.None? && !aborted
      modifies this
      ensures Valid() && id == old(nextId) && Now() == Begun(old(Now()), expected)
      ensures IsLive(Now(), id) && requests[id].phase.Uploading? && LogsGrow(old(Now()), Now())
    {
      hide Good;
      StartIsGood(Now(), expected);
      id := nextId;
      nextId := nextId + 1;
      requests := requests[id := NewRequest(expected)];
      slot := Some(id);
      children := children + {id};
    }

    /** Appends a chunk to the upload; anything wrong with it ends the request. */
    method Write(id: Id, chunk: Option<Bytes>, setTimeout: Callback) returns (r: Reply)
      requires Valid()
      modifies this
      ensures Valid() && nextId == old(nextId) && requests.Keys == old(requests.Keys)
      ensures r == Threw || r.Answer?
      ensures r == Threw ==> Now() == old(Now()) || slot == None
      ensures r.Answer? <==> old(IsUpload(Now(), id)) && Fits(old(requests)[id], chunk) && Passes(setTimeout)
      ensures r.Answer? ==> old(IsLive(Now(), id)) && IsLive(Now(), id)
      ensures r.Answer? ==>
        requests[id].accepted == old(requests)[id].accepted + chunk.value && requests[id].phase.Uploading?
      ensures r.Answer? ==>
        && posts == old(posts) && settled == old(settled)
        && forall other | other in requests && other != id :: requests[other] == old(requests)[other]
      ensures LogsGrow(old(Now()), Now())
    {
      hide Good, IsLive, IsUpload, LogsGrow;
      ghost var before := Now();
      SameLogs(before);
      UploadSpelledOut(Now(), id);
      if aborted || slot != Some(id) { return Threw; }
      SlotHolds(Now(), id);
      if !requests[id].phase.Uploading? || requests[id].recovery.Some? { return Threw; }
      HolderIsLive(Now(), id);
      EndingUpload(Now(), id);
      AbortedActiveIsGood(Now(), id);
      if chunk.None? || |chunk.value| > MAX_MODULE_CHUNK_BYTES || chunk.value == []
         || |chunk.value| > requests[id].expected - requests[id].uploaded {
        AbortActive(id);
        return Threw;
      }
      ChunkIsGood(Now(), id, chunk.value);
      requests := requests[id := WithChunk(requests[id], chunk.value)];
      ghost var written := Now();
      RecordLogs(before, id, requests[id]);
      var threw := RefreshUploadTimer(id, setTimeout);
      LogsGrowFurther(before, written, Now());
      if threw {
        AbortedActiveIsGood(Now(), id);
        EndingUpload(Now(), id);
        LogsGrowFurther(before, Now(), AbortedRequest(Now(), id, false));
        AbortActive(id);
        return Threw;
      }
      return Reply.Answer(id, MetadataOf(requests[id]));
    }

    /** Starts the run: the uploaded module goes to a new worker, or the request ends. */
    method RunRequest(id: Id, setup: Setup) returns (r: Reply)
      requires Valid()
      modifies this
      ensures Valid() && nextId == old(nextId) && requests.Keys == old(requests.Keys)
      ensures r == Threw ==> posts == old(posts) && (Now() == old(Now()) || slot == None)
      ensures r == Threw || r == Nothing
      ensures r == Nothing <==> old(IsUpload(Now(), id) && requests[id].uploaded == requests[id].expected)
      ensures r == Nothing ==> !requests[id].phase.Uploading?
      ensures r == Nothing && AllPass(setup) ==> posts != old(posts)
      ensures r == Nothing && SomethingThrows(setup) ==> posts == old(posts) && !IsLive(Now(), id)
      ensures r == Nothing && NothingHappensIn(setup) ==>
        IsLive(Now(), id) && requests[id].phase.Running? && HasWorker(requests[id])
      ensures r != Threw && IsLive(Now(), id) ==> posts != old(posts)
      ensures posts == old(posts)
        || (id in old(requests)
            && exists p: Post :: posts == old(posts) + [p] && p.id == id && p.content == old(requests)[id].accepted)
      ensures LogsGrow(old(Now()), Now())
    {
      hide Good, AbortedRequest, AllPass, SomethingThrows, NothingHappensIn, LogsGrow;
      ghost var before := Now();
      SameLogs(before);
      if aborted || slot != Some(id) { return Threw; }
      SlotHolds(Now(), id);
      HolderIsLive(Now(), id);
      if !requests[id].phase.Uploading? || requests[id].recovery.Some? { return Threw; }
      if requests[id].uploaded != requests[id].expected {
        AbortedActiveIsGood(Now(), id);
        EndingUpload(Now(), id);
        AbortActive(id);
        return Threw;
      }
      RunningIsGood(Now(), id);
      var content := requests[id].module_;
      requests := requests[id := AsRunning(requests[id])];
      ghost var running := Now();
      RecordLogs(before, id, requests[id]);
      RunInWorker(id, content, setup);
      LogsGrowFurther(before, running, Now());
      return Nothing;
    }

    method RunInWorker(id: Id, content: Bytes, setup: Setup)
      requires Valid() && IsLive(Now(), id) && requests[id].phase.Running?
      requires requests[id].accepted == content && |content| == requests[id].expected
      modifies this
      ensures Valid() && nextId == old(nextId) && requests.Keys == old(requests.Keys) && !requests[id].phase.Uploading?
      ensures posts == old(posts) || exists p: Post :: posts == old(posts) + [p] && p.id == id && p.content == content
      ensures IsLive(Now(), id) ==> posts != old(posts)
      ensures AllPass(setup) ==> posts != old(posts)
      ensures SomethingThrows(setup) ==> posts == old(posts) && !IsLive(Now(), id)
      ensures NothingHappensIn(setup) ==>
        IsLive(Now(), id) && requests[id].phase.Running? && HasWorker(requests[id])
      ensures LogsGrow(old(Now()), Now())
    {
      hide Good, Interrupted, SettingUp, AbortedRequest, Finished, LogsGrow;
      ghost var running := Now();
      var threw := Call(id, setup.createWorker, false, None);
      CallSpelledOut(running, Now(), id);
      ghost var called := Now();
      if threw {
        AbortedIsGood(called, id, false, None);
        AbortingSpelledOut(called, id, false);
        LogsGrowFurther(running, called, AbortedRequest(called, id, false));
        AbortRequest(id, false);
        return;
      }
      threw := AcquireWorker(id, content);
      ghost var acquired := Now();
      LogsGrowFurther(running, called, acquired);
      var ok := false;
      if !threw { ok := SetUpWorker(id, content, setup); }
      ghost var prepared := Now();
      if !threw { LogsGrowFurther(running, acquired, prepared); }
      ConcludeSetup(id, content, ok);
      LogsGrowFurther(running, prepared, Now());
    }

    /** Takes the new worker, and ends it at once if the owner was aborted while it was created. */
    method AcquireWorker(id: Id, content: Bytes) returns (threw: bool)
      requires Good(Now(), None) && AbortIsFinal(Now()) && id in requests && requests[id].phase.Running?
      requires requests[id].recovery.None? && requests[id].accepted == content && |content| == requests[id].expected
      requires (IsLive(Now(), id) || aborted) && (slot == Some(id) || slot == None)
      modifies this`requests, this`children, this`slot, this`settled
      ensures SettingUp(Now(), id, content) && requests.Keys == old(requests.Keys) && threw == aborted
      ensures requests[id].phase == old(requests)[id].phase && LogsGrow(old(Now()), Now())
      ensures !threw && old(IsLive(Now(), id)) ==> IsLive(Now(), id)
      ensures !threw ==> requests[id] == WithWorker(old(requests)[id])
    {
      hide Good, SettingUp, AbortedRequest, LogsGrow;
      ghost var called := Now();
      WorkerIsAcquired(called, id, content);
      requests := requests[id := WithWorker(requests[id])];
      ghost var taken := Now();
      RecordLogs(called, id, requests[id]);
      AbortingSpelledOut(taken, id, true);
      threw := ThrowIfAborted(id, true);
      if threw { LogsGrowFurther(called, taken, Now()); }
    }

    method ConcludeSetup(id: Id, content: Bytes, ok: bool)
      requires SettingUp(Now(), id, content) && (ok && !requests[id].phase.Done? ==> IsLive(Now(), id))
      modifies this
      ensures Valid() && nextId == old(nextId) && requests.Keys == old(requests.Keys) && posts == old(posts)
      ensures id in requests && !requests[id].phase.Uploading? && (IsLive(Now(), id) ==> ok)
      ensures ok && old(IsLive(Now(), id)) ==>
        IsLive(Now(), id) && requests[id] == old(requests)[id].(workerSetup := false)
      ensures LogsGrow(old(Now()), Now())
    {
      hide Good, SettingUp, AbortedRequest, Finished, IsLive, LogsGrow;
      ghost var before := Now();
      SameLogs(before);
      SetupSpelledOut(Now(), id, content);
      if !ok {
        FailedSetup(Now(), id, content);
        AbortingSpelledOut(Now(), id, true);
        AbortRequest(id, true);
      }
      ghost var ended := Now();
      FinishedIsGood(ended, id, ok);
      FinishedSpelledOut(ended, id, ok);
      LogsGrowFurther(before, ended, Finished(ended, id, ok));
      FinishWorkerSetup(id, ok);
    }

    /** Gives the worker its listeners, its time and its module; fails as soon as something throws or aborts. */
    method SetUpWorker(id: Id, content: Bytes, setup: Setup) returns (ok: bool)
      requires SettingUp(Now(), id, content)
      modifies this
      ensures SettingUp(Now(), id, content) && requests.Keys == old(requests.Keys) && nextId == old(nextId)
      ensures ok && !requests[id].phase.Done? ==> IsLive(Now(), id)
      ensures posts == old(posts) || exists p: Post :: posts == old(posts) + [p] && p.id == id && p.content == content
      ensures ok ==> posts != old(posts)
      ensures !old(aborted) && AllPass(setup) ==> ok
      ensures setup.setTimeout.throws || setup.getWasiRef.throws || setup.postMessage.throws ==>
        !ok && posts == old(posts)
      ensures !old(aborted) && NothingHappensIn(setup) ==> requests[id] == old(requests)[id].(timer := true)
      ensures LogsGrow(old(Now()), Now())
    {
      hide Good, IsLive, Interrupted, SettingUp, AbortedRequest, LogsGrow;
      SetupSpelledOut(Now(), id, content);
      ghost var start := Now();
      ok := GetReady(id, content, setup);
      if !ok { return false; }
      ghost var ready := Now();
      PostedLogs(ready, PostOf(ready, id, content));
      if !setup.postMessage.throws {
        PostingIsGood(Now(), id, content);
        posts := posts + [PostOf(Now(), id, content)];
      }
      LogsGrowFurther(start, ready, Now());
      ghost var posted := Now();
      var threw := CallInSetup(id, content, setup.postMessage);
      LogsGrowFurther(start, posted, Now());
      if threw { return false; }
      ghost var called := Now();
      threw := StopIfAborted(id, content);
      LogsGrowFurther(start, called, Now());
      return !threw;
    }

    /** Everything before the module is posted. */
    method GetReady(id: Id, content: Bytes, setup: Setup) returns (ok: bool)
      requires SettingUp(Now(), id, content)
      modifies this
      ensures SettingUp(Now(), id, content) && requests.Keys == old(requests.Keys) && nextId == old(nextId)
      ensures id in requests && posts == old(posts) && LogsGrow(old(Now()), Now())
      ensures !old(aborted) && AllPass(setup) ==> ok && !aborted
      ensures setup.setTimeout.throws || setup.getWasiRef.throws ==> !ok
      ensures !old(aborted) && NothingHappensIn(setup) ==> requests[id] == old(requests)[id].(timer := true)
    {
      hide Good, IsLive, Interrupted, SettingUp, AbortedRequest, LogsGrow;
      ghost var start := Now();
      SetupSpelledOut(start, id, content);
      var threw := CallInSetup(id, content, setup.setTimeout);
      if threw { return false; }
      ghost var called := Now();
      TimerInSetup(called, id, content);
      requests := requests[id := requests[id].(timer := true)];
      RecordLogs(called, id, requests[id]);
      ghost var timed := Now();
      LogsGrowFurther(start, called, timed);
      threw := StopIfAborted(id, content);
      ghost var stopped := Now();
      LogsGrowFurther(start, timed, stopped);
      if threw { return false; }
      threw := CallInSetup(id, content, setup.getWasiRef);
      ghost var got := Now();
      LogsGrowFurther(start, stopped, got);
      if threw { return false; }
      threw := StopIfAborted(id, content);
      LogsGrowFurther(start, got, Now());
      return !threw;
    }

    method CallInSetup(id: Id, content: Bytes, callback: Callback) returns (threw: bool)
      requires SettingUp(Now(), id, content)
      modifies this
      ensures SettingUp(Now(), id, content) && requests.Keys == old(requests.Keys) && nextId == old(nextId)
      ensures id in requests && posts == old(posts) && threw == callback.throws
      ensures aborted <==> old(aborted) || AbortNow in callback.interrupts
      ensures callback.interrupts == [] ==> Now() == old(Now())
      ensures LogsGrow(old(Now()), Now())
    {
      hide Good, IsLive, Interrupted, SettingUp;
      SetupSpelledOut(Now(), id, content);
      ghost var before := Now();
      threw := Call(id, callback, true, Some(id));
      InterruptionInSetup(before, Now(), id, content);
      KeysStay(before, Now(), id, true);
    }

    method StopIfAborted(id: Id, content: Bytes) returns (threw: bool)
      requires SettingUp(Now(), id, content)
      modifies this
      ensures SettingUp(Now(), id, content) && requests.Keys == old(requests.Keys) && nextId == old(nextId)
      ensures id in requests && posts == old(posts) && (!threw && !requests[id].phase.Done? ==> IsLive(Now(), id))
      ensures !old(aborted) ==> !threw && Now() == old(Now())
      ensures LogsGrow(old(Now()), Now())
    {
      hide Good, IsLive, SettingUp, AbortedRequest;
      ghost var before := Now();
      SetupSpelledOut(before, id, content);
      if aborted { AbortInSetup(before, id, content); }
      AbortingSpelledOut(before, id, true);
      threw := ThrowIfAborted(id, true);
    }

    method FinishWorkerSetup(id: Id, ok: bool)
      requires id in requests
      modifies this`requests, this`children
      ensures Now() == Finished(old(Now()), id, ok)
    {
      hide IsClean, MetadataOf;
      requests := requests[id := requests[id].(workerSetup := false)];
      if requests[id].phase.Done? {
        FinalizeTerminalRequest(id, true);
        return;
      }
      if ok { return; }
      CleanupResources(id, true);
      if IsClean(requests[id]) && slot != Some(id) { children := children - {id}; }
    }

    /** Reads on in the error text of a run that is over. */
    method ReadError(id: Id, chunkLength: int) returns (r: Reply)
      requires Valid()
      modifies this`requests
      ensures Valid() && (r == Threw ==> Now() == old(Now())) && (r == Threw || r.Chunk?)
      ensures r.Chunk? <==> old(!aborted && slot == Some(id) && id in requests && Readable(requests[id], chunkLength))
      ensures r.Chunk? ==>
        && id in requests && id in old(requests) && |r.bytes| == chunkLength
        && requests[id].errorBytes == old(requests)[id].errorBytes
        && requests[id].errorOffset <= |requests[id].errorBytes|
        && requests[id].errorBytes[..requests[id].errorOffset]
           == old(requests)[id].errorBytes[..old(requests)[id].errorOffset] + r.bytes
      ensures r.Chunk? ==>
        && requests[id].result.Some? && requests[id].given == old(requests)[id].given + r.bytes
        && requests[id].given <= requests[id].result.value.error
        && requests == old(requests)[id := requests[id]]
      ensures LogsGrow(old(Now()), Now())
    {
      hide Good, IsLive;
      if aborted || slot != Some(id) { return Threw; }
      SlotHolds(Now(), id);
      var current := requests[id];
      if !current.phase.Done? || chunkLength < 0 || chunkLength > MAX_ERROR_CHUNK_BYTES { return Threw; }
      if chunkLength > |current.errorBytes| - current.errorOffset { return Threw; }
      ReadingIsGood(Now(), id, chunkLength);
      ReadsOn(current.errorBytes, current.errorOffset, chunkLength);
      ReadFromReport(Now(), id, chunkLength);
      requests := requests[id := ReadOn(current, chunkLength)];
      return Chunk(current.errorBytes[current.errorOffset..current.errorOffset + chunkLength]);
    }

    /** Ends an active request but keeps it in the slot, so that its end can be acknowledged. */
    method Recover() returns (r: Reply)
      requires Valid()
      modifies this
      ensures Valid() && slot == old(slot) && nextId == old(nextId)
      ensures !old(aborted) && slot.Some? ==>
        r.Answer? && r.id == slot.value && !IsLive(Now(), r.id) && TellsHowItWent(requests[r.id], r.metadata)
      ensures old(aborted) ==> r == Threw
      ensures !old(aborted) && slot.None? ==> r == Nothing && Now() == old(Now())
      ensures LogsGrow(old(Now()), Now())
    {
      hide Good;
      if aborted { return Threw; }
      if slot.None? { return Nothing; }
      var id := slot.value;
      SlotHolds(Now(), id);
      if requests[id].recovery.None? && !requests[id].phase.Done? {
        RetainedIsGood(Now(), id);
        RetainActiveRecovery(id);
      }
      MetadataTells(Now(), id);
      var recovery := requests[id].recovery;
      return Reply.Answer(id, if recovery.Some? then recovery.value else MetadataOf(requests[id]));
    }

    /** Frees the slot, ending the request if it is still active. */
    method End(id: Id) returns (r: Reply)
      requires Valid()
      modifies this
      ensures Valid() && nextId == old(nextId) && requests.Keys == old(requests.Keys)
      ensures !old(aborted) && old(slot) in {None, Some(id)} ==> r == Nothing && slot == None
      ensures old(aborted) || old(slot) !in {None, Some(id)} ==> r == Threw && Now() == old(Now())
      ensures LogsGrow(old(Now()), Now())
    {
      hide Good, IsLive;
      if aborted { return Threw; }
      if slot.None? { return Nothing; }
      if slot != Some(id) { return Threw; }
      SlotHolds(Now(), id);
      ghost var before := Now();
      HolderIsLive(before, id);
      if requests[id].recovery.Some? || requests[id].phase.Done? {
        LeavingIsGood(before, id);
        if requests[id].recovery.None? {
          CleanupResources(id, false);
          slot := None;
          if IsClean(requests[id]) { children := children - {id}; }
        } else {
          slot := None;
        }
      } else {
        AbortedActiveIsGood(before, id);
        AbortActive(id);
      }
      return Nothing;
    }

    // ---------- events ----------

    method UploadTimeout(id: Id)
      requires Valid() && id in requests
      modifies this
      ensures Valid() && Now() == UploadTimedOut(old(Now()), id)
      ensures LogsGrow(old(Now()), Now())
    {
      hide Good, IsLive;
      ghost var before := Now();
      TimedOutIsGood(before, id);
      requests := requests[id := requests[id].(timer := false)];
      if slot == Some(id) && requests[id].phase.Uploading? && requests[id].recovery.None? {
        Restore(id);
        slot := None;
        if IsClean(requests[id]) { children := children - {id}; }
      }
      assert Now() == UploadTimedOut(before, id);
    }

    /** A result of the worker, its failure or the end of its time. */
    method WorkerEvent(id: Id, timedOut: bool, result: WorkerResult)
      requires Valid() && id in requests
      modifies this
      ensures Valid() && slot == old(slot) && nextId == old(nextId) && requests.Keys == old(requests.Keys)
      ensures old(IsLive(Now(), id) && requests[id].phase.Running?) ==>
        IsCompletedWith(requests[id], result)
      ensures LogsGrow(old(Now()), Now())
    {
      hide Good, LogsGrow, IsCompletedWith;
      ghost var before := Now();
      SameLogs(before);
      if timedOut {
        ClearingAnyIsGood(Now(), id);
        requests := requests[id := requests[id].(timer := false)];
        RecordLogs(before, id, requests[id]);
      }
      ghost var cleared := Now();
      CompletedIsGood(cleared, id, result, None);
      CompletedLogs(cleared, id, result);
      LogsGrowFurther(before, cleared, Completed(cleared, id, result));
      Complete(id, result);
    }

    /** Once the promise of a run has settled, its request is forgotten if nothing is left to clean up. */
    method RunReturned(id: Id)
      requires Valid() && id in requests && requests[id].run.Settled?
      modifies this`children
      ensures Valid()
      ensures LogsGrow(old(Now()), Now())
    {
      hide Good;
      ForgettingIsGood(Now(), id);
      if IsClean(requests[id]) { children := children - {id}; }
    }

    /** The end of disposal: no request is left behind that is not restored or gracefully over. */
    method Dispose()
      requires Valid()
      modifies this
      ensures Valid() && aborted && slot == None && nextId == old(nextId)
      ensures forall id | id in requests :: requests[id].run != Open && !requests[id].timer && !requests[id].worker
      ensures LogsGrow(old(Now()), Now())
    {
      hide Good, Interrupted;
      Abort(None);
      SlotClearedIsGood(Now());
      slot := None;
    }

    // ---------- any run ----------

    /** Any messages and events in any order, with whatever happens inside them, keep the invariant. */
    method Run(events: seq<Event>)
      requires Valid()
      modifies this
      ensures Valid() && old(nextId) <= nextId
      ensures LogsGrow(old(Now()), Now())
    {
      hide Good, IsLive;
      for i := 0 to |events|
        invariant Valid() && old(nextId) <= nextId && LogsGrow(old(Now()), Now())
      {
        Perform(events[i]);
      }
    }

    method Perform(event: Event)
      requires Valid()
      modifies this
      ensures Valid() && old(nextId) <= nextId
      ensures LogsGrow(old(Now()), Now())
    {
      hide Good, IsLive;
      match event
      case Starting(length, listsOk, snapshotOk, timer) => var _ := Start(length, listsOk, snapshotOk, timer);
      case Writing(id, chunk, timer) => var _ := Write(id, chunk, timer);
      case RunningModule(id, setup) => var _ := RunRequest(id, setup);
      case ReadingError(id, length) => var _ := ReadError(id, length);
      case Recovering => var _ := Recover();
      case Ending(id) => var _ := End(id);
      case UploadTimer(id) => if id in requests { UploadTimeout(id); }
      case WorkerResulting(id, timedOut, result) => if id in requests { WorkerEvent(id, timedOut, result); }
      case Returning(id) => if id in requests && requests[id].run.Settled? { RunReturned(id); }
      case Aborting =>
        Abort(None);
      case Disposing => Dispose();
    }
  }
}
