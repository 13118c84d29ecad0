# Verified models of the in-browser Rust workspace

A Dafny model of the parts of the repository where state is moved between owners that do not trust each other's timing:
the editor's virtual file system and the host tree of a child process, the page and its two workers, the page and a child
process, byte streams and their readers, terminal output and the views that show it.  `dafny verify dfyconfig.toml`
checks everything.

The files follow the source.

- **Workspace synchronisation** (`crates/vfs/src/filesystem_sync.rs`): `Paths`, `Snapshots` and `Walkers` define paths,
  trees, exclusions and the walks that take snapshots; `OrderedLookups` the range lookups that start at `path.join(NUL)`;
  `Reconcile` the three-way merge; `FileSystems` a file system whose primitives demand what POSIX demands and which
  records every step; `ApplySnapshot` the plain application of a snapshot; `Differences`, `RecheckedRuns` and
  `RecheckedApply` the one that rechecks before every step while anybody may edit the tree; `Sync` the runs from end to end.
- **Worker handshake** (`page/src/runtime_worker_protocol.ts`): `Handshake` gives the three parties as step functions over
  FIFO queues, with every failure an event; `HandshakeSafety` and `HandshakeTermination` prove what holds in every
  interleaving, and `HandshakeOutcomes` traces what the two promises become back to what happened; `HandshakeMachines`
  are the stateful machines, and `HandshakeRuns` wires the three objects together and proves that what they do is such an
  interleaving, so that the theorems hold of the objects.
- **Child processes** (`lib/src/child_process_bridge.ts`): `Inodes` and `ChildFilesystem` are the snapshot and restore of
  an inode graph that is edited in place; `ChildRequests` and `ChildBridge` the request machine with its timers, worker,
  recovery and abort.
- **Editor workspace** (`page/src/workspace_fs.ts`): `WorkspacePaths`, `WorkspaceTrees`, `WorkspaceFs`.
- **Language server stream** (`page/src/lsp_protocol.ts`, `scripts/rust_analyzer_minimal/lsp_stdin.ts`): `LspHeaders` reads
  headers byte by byte as the Base Protocol of the Language Server Protocol 3.17, Header Part, lays them out; `LspFraming`
  is the decoder; `LspInput` the queue that cuts the stream into reads of any size.
- **Terminals** (`page/src/terminal_channel_lifecycle.ts`, `page/src/runtime_terminal_service.ts`): `BoundedHistory` and
  `RuntimeTerminal`, whose views are scripts of arbitrary calls back into the service; `TextEncodings` proves the byte
  counts and cuts used here and in the trace to be those of UTF-8 as RFC 3629, section 3, lays it out.
- **Additional sysroots** (`crates/vfs-shell/src/main.rs`, `page/src/vfs_readiness.ts`,
  `page/src/app_startup_lifecycle.ts`): `SysrootRequests`, `SysrootSessions`, `SysrootClient`.
- **Debug trace** (`page/src/vfs_debug_trace.ts`): `Utf16Text` and `TraceCollector`.
- `Basics` holds the types everybody uses, `Sequences` facts about slices.

Where the code does less than one might expect, the exact condition is proved, and an input that shows it:

- A directory that the host keeps because excluded state lies below it, and that the VFS does not have, is handed back to
  the VFS after a child that changed nothing (`Sync.UnchangedHostHandsBackBaseline`, `Sync.KeptDirectoryEntersVfs`; a host
  with `.cargo/registry` and an empty workspace in `Sync.CargoDirectoryEntersVfs`).
- The startup promise stays open for good exactly when destroying fails while startup is undecided
  (`HandshakeTermination.StartupSettlesExceptWhenDestroyFails`, with a run in `StartupCanStayOpen`).
- `rename` normalises its paths and parses them a second time; a path whose first name is one letter and a colon, and that
  goes on below it, is refused then (`WorkspacePaths.NormalizedParts`, part of `WorkspaceFs.RenameAllowed`; the file
  `//C:/x` in `WorkspaceFs.DriveIsNeverRenamed`).
- An LSP push that throws delivers none of the messages it had already decoded, so every cut of a stream delivers all its
  messages exactly when no broken frame follows a good one (`LspFraming.EveryCutDeliversAll`, with two cuts of one stream
  in `LspFraming.CutDecidesDelivery`).
- A terminal history loses a byte order mark exactly when an append cuts right in front of it
  (`BoundedHistory.HistoryIsLongestSuffix`, with such appends in `BoundedHistory.MarkIsLost`).
- A start of a sysroot request that fails leaves its request in the table exactly when the guest is loading it at that
  moment (`SysrootSessions.WithdrawnUnlessLoading`; in any table that takes a request in `SysrootSessions.BegunRequestStays`).

## Model

| member | source | states |
|---|---|---|
| OrderedLookups.BelowSortsAfterJoinedNul | crates/vfs/src/filesystem_sync.rs:1026-1039 | joining a NUL name to a path gives a key that sorts before everything below the path |
| OrderedLookups.BetweenLiesBelow | crates/vfs/src/filesystem_sync.rs:959-972 | nothing that is not below the path sorts between that key and something below the path |
| OrderedLookups.RangeOpensWithSubtree | crates/vfs/src/filesystem_sync.rs:1026-1039 | a range from that key holds everything strictly below the path, and opens with exactly that |
| OrderedLookups.HasAncestorOrDescendant | crates/vfs/src/filesystem_sync.rs:959-972 | true exactly when some member is a prefix of the path or has it as a prefix |
| OrderedLookups.DescendantPaths | crates/vfs/src/filesystem_sync.rs:1026-1039 | exactly the members that have the path as a prefix |
| OrderedLookups.RemoveSubtreeEntries | crates/vfs/src/filesystem_sync.rs:1066-1070 | exactly the entries at and below the path are gone |
| Reconcile.NothingKeptBelowAccepted | crates/vfs/src/filesystem_sync.rs:252-263 | below an accepted change the editor's tree holds nothing that is not an accepted change itself, so deleting the subtree loses nothing |
| Reconcile.ReconcileDiff | crates/vfs/src/filesystem_sync.rs:226-271 | the loop that deletes subtrees as it goes computes the three-way merge path by path: the child's value where the child changed it and no conflict is related, else the editor's; the conflicts are the related editor changes, in order |
| Reconcile.MergeKeepsTreeShape | crates/vfs/src/filesystem_sync.rs:226-271 | merging well-formed trees gives a well-formed tree, whatever replaces what and whichever changes are accepted |
| Reconcile.EditorChangesStay | crates/vfs/src/filesystem_sync.rs:240-247 | every editor change is in the merged tree, and is reported where the child changed the same path |
| Reconcile.ChildChangesLandOrConflict | crates/vfs/src/filesystem_sync.rs:240-263 | every child change is in the merged tree or related to a reported editor change |
| Reconcile.MergeWithoutEdits | crates/vfs/src/filesystem_sync.rs:226-271 | without editor changes the merge is the child's tree, with no conflicts |
| Reconcile.MergeWithoutChildChanges | crates/vfs/src/filesystem_sync.rs:226-271 | without child changes the merge is the editor's tree, with no conflicts |
| Walkers.RecordExcludedAncestors | crates/vfs/src/filesystem_sync.rs:150-156 | adds exactly the proper ancestors of the excluded path |
| Walkers.SnapshotVfsDir | crates/vfs/src/filesystem_sync.rs:569-615 | a recursive walk adds exactly the visible entries below its directory and the ancestors of what is hidden there |
| Walkers.SnapshotVfs | crates/vfs/src/filesystem_sync.rs:546-567 | a whole walk records exactly the visible tree and the directories with excluded state below them |
| Walkers.SnapshotVfsBranch | crates/vfs/src/filesystem_sync.rs:645-704 | a branch walk records the path and its ancestors as they are, and on request the visible subtree and its hidden ancestors |
| Snapshots.WalksGiveWellFormedSnapshots | crates/vfs/src/filesystem_sync.rs:477-615 | a walk's snapshot is a tree without excluded paths, and its recorded ancestors are closed upwards and are directories |
| Snapshots.HiddenStateHasRecordedAncestors | crates/vfs/src/filesystem_sync.rs:150-156 | every visible directory above excluded state is recorded |
| FileSystems.LegalOpsKeepTreeShape | crates/vfs/src/filesystem_sync.rs:762-835 | a primitive whose precondition holds keeps the tree a tree and changes one path only |
| FileSystems.FileSystem.BeforeMutation | crates/vfs/src/filesystem_sync.rs:867-884 | just before a step the tree may become any other tree |
| ApplySnapshot.RemovalIsLegal | crates/vfs/src/filesystem_sync.rs:774-798 | with all deeper removals done, the next removal hits a file or an empty directory |
| ApplySnapshot.NewDirectoryIsLegal | crates/vfs/src/filesystem_sync.rs:800-811 | with all shallower directories made, the next one has a parent directory and a free name |
| ApplySnapshot.FileWriteIsLegal | crates/vfs/src/filesystem_sync.rs:813-834 | a changed file is overwritten where one is and created where its parent is a directory and the name is free |
| ApplySnapshot.PlanReachesGoal | crates/vfs/src/filesystem_sync.rs:706-835 | removals, directories and files together leave the desired tree plus the directories that excluded state needs, and excluded state untouched |
| ApplySnapshot.GoalKeepsOnlyWhatHidesExcludedState | crates/vfs/src/filesystem_sync.rs:158-160 | the directories kept in addition are exactly the visible ones with excluded state below them |
| ApplySnapshot.ApplyVfsSnapshot | crates/vfs/src/filesystem_sync.rs:762-835 | reports the first blocked replacement and touches nothing, or every primitive succeeds and the goal is reached |
| ApplySnapshot.ApplyHostSnapshot | crates/vfs/src/filesystem_sync.rs:706-760 | the same on the host, where a write creates or overwrites |
| Differences.BranchShowsDifferences | crates/vfs/src/filesystem_sync.rs:974-1024 | comparing with the branch walk finds exactly the disagreements with the live tree at, above and, if asked, below a path |
| Differences.AffectedCandidatePaths | crates/vfs/src/filesystem_sync.rs:1002-1024 | exactly the recorded entries that a mutation of the path concerns |
| Differences.AffectedDifferences | crates/vfs/src/filesystem_sync.rs:974-1000 | exactly the paths around the mutation where the live tree is not as expected |
| RecheckedRuns.MutationsMeetExpectations | crates/vfs/src/filesystem_sync.rs:837-957 | at every mutation of any run under any interference the precondition holds, the path and all above it are live exactly as expected, and excluded state stays |
| RecheckedRuns.BlockedPathsStay | crates/vfs/src/filesystem_sync.rs:849-869 | no primitive of a run mutates a path at, above or below a blocked replacement, and all of them are expected as they were |
| RecheckedApply.NothingExpectedBelowRemoval | crates/vfs/src/filesystem_sync.rs:850-895 | what is still expected below a removal had a conflict that concerns the removal too, so it is not attempted |
| RecheckedApply.RemovalIsLegalNow | crates/vfs/src/filesystem_sync.rs:866-895 | a removal whose recheck was clean hits a live file or a live empty directory |
| RecheckedApply.DirectoryIsLegalNow | crates/vfs/src/filesystem_sync.rs:897-921 | a new directory whose recheck was clean has a live parent directory and a free name |
| RecheckedApply.FileConfirmed | crates/vfs/src/filesystem_sync.rs:923-954 | a file whose recheck was clean can be overwritten or created |
| RecheckedApply.NoEarlyConflictBelowNewDirectory | crates/vfs/src/filesystem_sync.rs:897-908 | no conflict of the removals lies below a new directory |
| RecheckedApply.EverythingSettled | crates/vfs/src/filesystem_sync.rs:837-957 | away from conflicts the expected tree has reached the goal |
| RecheckedApply.ApplyVfsSnapshotRechecked | crates/vfs/src/filesystem_sync.rs:837-957 | for all edits between steps: every primitive was legal and follows a clean recheck of its path, the conflicts are the blocked replacements and all differences met, and elsewhere the goal is reached |
| RecheckedRuns.UndisturbedRun | crates/vfs/src/filesystem_sync.rs:837-957 | left alone a run meets no difference, keeps hidden state and leaves exactly the replayed tree |
| RecheckedRuns.UndisturbedRunReachesGoal | crates/vfs/src/filesystem_sync.rs:837-957 | left alone a run reports only blocked replacements and ends in the goal |
| RecheckedRuns.UndisturbedRunWithoutExcludedState | crates/vfs/src/filesystem_sync.rs:837-957 | left alone and without excluded state the visible tree is exactly the desired one, with nothing blocked |
| Sync.MergedTreeSharesExclusions | crates/vfs/src/filesystem_sync.rs:318-340 | a merged tree is a well-formed snapshot that hangs the same excluded state below the same directories |
| Sync.SyncVfsToHost | crates/vfs/src/filesystem_sync.rs:300-316 | the host ends as the VFS plus what excluded state needs, or, exactly if a replacement is blocked, is untouched and the first one is named; the baseline is the VFS as it was |
| Sync.ImportHostAuthoritative | crates/vfs/src/filesystem_sync.rs:342-353 | the VFS ends as the host plus what excluded state needs, or, exactly if a replacement is blocked, is untouched and the first one is named |
| Sync.SyncHostToVfs | crates/vfs/src/filesystem_sync.rs:318-340 | merge and rechecked application together: legal under any interference, all conflicts reported, and the merged tree in place if nobody interferes |
| Sync.UnchangedHostHandsBackBaseline | crates/vfs/src/filesystem_sync.rs:300-316 | an unchanged host equals the baseline if and only if it did not have to keep a directory the VFS lacks |
| Sync.KeptDirectoryEntersVfs | crates/vfs/src/filesystem_sync.rs:318-340 | a directory kept that way is in the merged tree unless an editor change is related to it |
| Sync.CargoDirectoryEntersVfs | crates/vfs/src/filesystem_sync.rs:300-340 | with crates cached on the host, an empty workspace gets a `.cargo` directory that nobody made |
| Sync.UnchangedChildKeepsEditorTree | crates/vfs/src/filesystem_sync.rs:318-340 | merging a child that hands back the baseline gives the editor's tree |
| HandshakeSafety.InvStep | page/src/runtime_worker_protocol.ts:248-779 | every possible step of the three parties keeps the invariant |
| HandshakeSafety.InvThroughout | page/src/runtime_worker_protocol.ts:248-779 | the invariant holds in every state of every interleaving |
| HandshakeSafety.SingleOwner | page/src/runtime_worker_protocol.ts:248-441 | in every interleaving async_destroy is called at most once by anyone, by the lifecycle worker only after it restored the destroyer, the guest starts only after that, and startup is kept only after adoption and guest start |
| HandshakeSafety.TokenOnlyAfterAdoption | page/src/runtime_worker_protocol.ts:566-580 | a destroy request is posted only after adoption, and so after the Animal was restored |
| HandshakeSafety.OneToken | page/src/runtime_worker_protocol.ts:566-580 | at most one destroy request is ever posted |
| HandshakeSafety.RunKeeps | page/src/runtime_worker_protocol.ts:480-779 | a settled promise and a chosen destroy token never change again |
| HandshakeSafety.KeptDisposalMeansDestroyed | page/src/runtime_worker_protocol.ts:532-542 | once disposal is fulfilled, an Animal that was ever created has had async_destroy called on it exactly once |
| HandshakeTermination.InternalStepsLower | page/src/runtime_worker_protocol.ts:480-779 | every delivery and every settlement lowers a measure |
| HandshakeTermination.CallsDoNotRaise | page/src/runtime_worker_protocol.ts:728-776 | calls and error events never raise it |
| HandshakeTermination.RunsAreShort | page/src/runtime_worker_protocol.ts:480-779 | every run has at most 21 deliveries and settlements |
| HandshakeTermination.NothingLostThroughout | page/src/runtime_worker_protocol.ts:611-726 | until the page is terminal everything that was posted has been heard or is on its way |
| HandshakeTermination.DisposalIsNeverStuck | page/src/runtime_worker_protocol.ts:768-776 | once disposal is asked for, some message can be delivered or some destroy can settle until the page is terminal |
| HandshakeTermination.TerminalMeansSettled | page/src/runtime_worker_protocol.ts:513-542 | the page is terminal exactly when the disposal promise has settled |
| HandshakeTermination.StartupSettlesExceptWhenDestroyFails | page/src/runtime_worker_protocol.ts:718-725 | the step that ends the handshake leaves startup open if and only if it reports a failed destroy while startup is undecided |
| HandshakeTermination.StartupCanStayOpen | page/src/runtime_worker_protocol.ts:532-542 | a run in which that happens |
| HandshakeOutcomes.StartupNeedsGuest | page/src/runtime_worker_protocol.ts:277-293 | in every run startup is kept only after the guest has started, and never if its start failed |
| HandshakeOutcomes.GuestDecidesStartup | page/src/runtime_worker_protocol.ts:286-320 | once the guest has settled and the utility worker's messages have arrived, startup is kept if the guest started and nobody asked for disposal, and rejected if its start failed |
| HandshakeOutcomes.SmoothStartupIsKept | page/src/runtime_worker_protocol.ts:248-779 | without a call for disposal, an error event or a bad outcome, startup is never rejected, and is kept once nothing more can happen |
| HandshakeOutcomes.RejectedStartupHasCause | page/src/runtime_worker_protocol.ts:480-779 | behind every rejected startup there is a call for disposal, an error event or a bad outcome |
| HandshakeOutcomes.DisposalNeedsDestroy | page/src/runtime_worker_protocol.ts:532-542 | disposal of an Animal that the lifecycle worker adopted is kept only if its destroy call has succeeded, and of one it did not adopt only if the utility worker's has settled |
| HandshakeOutcomes.ExactlyFaultsRejectDisposal | page/src/runtime_worker_protocol.ts:513-779 | when the handshake is over, disposal is rejected if and only if there was a fault: an error event, a destroyer that could not be restored, a destroy call that failed, or a failure of the utility worker that arrived before disposal was asked for |
| HandshakeOutcomes.PreparationTracedThroughout | page/src/runtime_worker_protocol.ts:266-285 | in every run the Animal exists exactly if its constructor returned before any cancellation, and is published exactly if that worked too |
| HandshakeOutcomes.FirstFailureIsReported | page/src/runtime_worker_protocol.ts:544-556 | the consumer hears of the first failure after readiness unless disposal was asked for, and of no other |
| HandshakeOutcomes.WhatErrorEventsDo | page/src/runtime_worker_protocol.ts:728-741 | an error event of either worker rejects startup; when it ends the handshake at once and when it asks for the destroy request |
| HandshakeRuns.RuntimeSystem.Happen | page/src/runtime_worker_protocol.ts:248-779 | delivering one message between the three machines, or letting one call or settlement happen to them, extends a run of the model |
| HandshakeRuns.RuntimeSystem.Offer | page/src/runtime_worker_protocol.ts:248-779 | whatever is offered to the three machines in whatever order: async_destroy was called at most once between them, the guest runs only where the lifecycle worker took over, startup is kept only for a guest that started, disposal only for a destroy call that succeeded and is rejected exactly by faults, and at most 21 messages and settlements happened |
| HandshakeRuns.RuntimeSystem.DisposeToTheEnd | page/src/runtime_worker_protocol.ts:480-779 | from wherever the machines are, asking for disposal and then only delivering messages and settling destroys ends with a terminal page, and with disposal kept if and only if there was no fault |
| ChildFilesystem.MatchingGraphResolves | lib/src/child_process_bridge.ts:218-276 | a saved graph resolves every path outside the system root as the graph it was taken of |
| ChildFilesystem.SavedPathsAreUnique | lib/src/child_process_bridge.ts:242-247 | in an accepted graph no object is reached by two paths |
| ChildFilesystem.AcceptedGraphIsTree | lib/src/child_process_bridge.ts:242-247 | the shared-inode check accepts trees only |
| ChildFilesystem.CountedEverything | lib/src/child_process_bridge.ts:218-276 | when the worklist is empty no list of paths below the root is longer, or holds more bytes, than what was counted |
| ChildFilesystem.SnapshotFilesystem | lib/src/child_process_bridge.ts:218-276 | the worklist ends; accepts exactly the trees of files and directories within the limits, saves what is there, and refuses for a reason that holds |
| ChildFilesystem.FrontierAdvances | lib/src/child_process_bridge.ts:278-295 | restoring one directory moves the frontier of what is restored past it |
| ChildFilesystem.RestoredPathLeadsBack | lib/src/child_process_bridge.ts:278-295 | with an empty worklist every path outside the system root leads to its saved object with its saved contents |
| ChildFilesystem.RestoreFilesystem | lib/src/child_process_bridge.ts:278-295 | whatever was changed, every saved path leads back, the root has its saved names, and nothing that was not saved is touched |
| ChildFilesystem.RunUndone | lib/src/child_process_bridge.ts:218-295 | snapshot, any changes to contents, flags and directories, restore: outside the system root nothing has happened |
| ChildRequests.UpdatedIsGood | lib/src/child_process_bridge.ts:491-623 | changing one request in an allowed way keeps the invariant of all |
| ChildRequests.AbortedIsGood | lib/src/child_process_bridge.ts:491-510 | an aborted request is restored or was gracefully over, is settled, holds no timer or worker outside a setup, and stays in the slot only if it was over already |
| ChildRequests.CompletedIsGood | lib/src/child_process_bridge.ts:565-586 | a finished run is answered with the status of its result and the length of its error text, is restored exactly unless graceful, holds nothing, and has all of the error text, or as much of its front as fits, to be read |
| ChildRequests.RetainedIsGood | lib/src/child_process_bridge.ts:606-623 | a recovered request keeps the slot but is restored, settled and holds nothing |
| ChildRequests.AbortedActiveIsGood | lib/src/child_process_bridge.ts:588-604 | ending the active request is aborting it |
| ChildRequests.TimedOutIsGood | lib/src/child_process_bridge.ts:543-554 | an upload that times out is restored and leaves the slot |
| ChildBridge.WhatTheInvariantMeans | lib/src/child_process_bridge.ts:491-857 | no run settles twice, every request outside the slot is restored or ended gracefully with its run settled and nothing held, every module posted is all that was accepted at the declared length, a worker that is alive got it from a request that still was, and what was read of an error text is the front of what the worker reported |
| ChildBridge.StartIsGood | lib/src/child_process_bridge.ts:629-659 | a start takes an id that was never used |
| ChildBridge.ChunkIsGood | lib/src/child_process_bridge.ts:661-685 | a chunk extends the uploaded part of the buffer by itself and nothing else |
| ChildBridge.WorkerIsAcquired | lib/src/child_process_bridge.ts:716-722 | a worker that is created while an abort happens is terminated before it can be given anything |
| ChildBridge.PostingIsGood | lib/src/child_process_bridge.ts:762-773 | at the time of posting the module is complete, and a worker that is alive belongs to a live request |
| ChildBridge.FinishedIsGood | lib/src/child_process_bridge.ts:472-489 | after its setup a worker is kept exactly by a request that is still live |
| ChildBridge.ChildProcessBridgeOwner.Start | lib/src/child_process_bridge.ts:629-659 | succeeds exactly if nothing was aborted, the slot is free, ids are left, the arguments are good and the timer could be set undisturbed; then the next id is a live request and nothing else has changed |
| ChildBridge.ChildProcessBridgeOwner.Write | lib/src/child_process_bridge.ts:661-690 | succeeds exactly for a live upload, a chunk that fits and a timer set undisturbed; then has appended the chunk and changed no other request, else has changed nothing or freed the slot |
| ChildBridge.ChildProcessBridgeOwner.RunRequest | lib/src/child_process_bridge.ts:692-795 | taken exactly for a live upload that is complete; then, if no call it makes throws or aborts, exactly one module is posted, which is everything accepted, and if no result arrives meanwhile the request runs on with a living worker and its time; if one throws, nothing is posted and the request is over |
| ChildBridge.ChildProcessBridgeOwner.ReadError | lib/src/child_process_bridge.ts:797-817 | gives exactly the next bytes of the error text if and only if the request is over, holds the slot and has that many left, else changes nothing; all that was read, joined, is the front of what the worker reported |
| ChildBridge.ChildProcessBridgeOwner.Recover | lib/src/child_process_bridge.ts:819-829 | ends the active request, keeps it in the slot and tells how far it had come, or with what status and how much error text it finished |
| ChildBridge.ChildProcessBridgeOwner.End | lib/src/child_process_bridge.ts:831-850 | frees the slot for its own id and changes nothing for another |
| ChildBridge.ChildProcessBridgeOwner.WorkerEvent | lib/src/child_process_bridge.ts:565-586 | the first result of a live run ends it: answered with its status, restored exactly unless graceful, its error text there to be read from the start |
| ChildBridge.ChildProcessBridgeOwner.Abort | lib/src/child_process_bridge.ts:522-530 | afterwards no request is live, also while a worker is being set up |
| ChildBridge.ChildProcessBridgeOwner.Dispose | lib/src/child_process_bridge.ts:864-881 | afterwards no run is open and no timer or worker is held |
| ChildBridge.ChildProcessBridgeOwner.Run | lib/src/child_process_bridge.ts:625-881 | any messages and events in any order, with aborts and results inside the calls they make, keep the invariant, never lower the next id and never take back a post, a settlement, a result or what was read |
| WorkspacePaths.NormalizedParts | page/src/workspace_fs.ts:214-224 | parsing a normalised path gives the same names, except that a leading one-letter name with a colon and more below is refused |
| WorkspacePaths.PartsOfSegments | page/src/workspace_fs.ts:214-224 | a path from the root stands for its segments without the empty ones and the dots, and is refused exactly for a segment that goes up or holds a backslash or a NUL, and for a drive in front |
| WorkspacePaths.EveryPathHasSegments | page/src/workspace_fs.ts:214-221 | every path from the root has such segments, and any other path is refused |
| WorkspacePaths.JoinedPrefix | page/src/workspace_fs.ts:184-186 | the string prefix test of rename compares whole names |
| WorkspacePaths.JoinedInjective | page/src/workspace_fs.ts:178-183 | equal normalised strings mean equal names |
| WorkspaceTrees.PathsAreUnique | page/src/workspace_fs.ts:39-72 | in a workspace tree no object is reached by two paths |
| WorkspaceTrees.LeafAdded | page/src/workspace_fs.ts:130-164 | a new leaf is found under its path and nothing else changes |
| WorkspaceTrees.EntryRemoved | page/src/workspace_fs.ts:166-175 | a deleted name takes away everything under its path and nothing else |
| WorkspaceTrees.MoveKeepsTree | page/src/workspace_fs.ts:207-208 | moving an entry keeps the graph a tree |
| WorkspaceTrees.MoveLeavesRest | page/src/workspace_fs.ts:207-208 | a path under neither name leads where it led |
| WorkspaceTrees.MoveMovesSubtree | page/src/workspace_fs.ts:207-208 | every suffix under the new name leads where it led under the old one, where now nothing is |
| WorkspaceFs.NeverNested | page/src/workspace_fs.ts:184-206 | when rename has passed its checks the source does not lie inside the destination |
| WorkspaceFs.MoveRenames | page/src/workspace_fs.ts:177-212 | the two map updates of rename move exactly the subtree, also where they replace something |
| WorkspaceFs.DriveIsNeverRenamed | page/src/workspace_fs.ts:177-224 | a file that can be found and written but can be renamed to nothing, because its first name reads as a drive |
| WorkspaceFs.WorkspaceFileSystem.Lookup | page/src/workspace_fs.ts:82-93 | finds what the path resolves to, and fails exactly when there is nothing: on a file in the middle of the path or on a missing name |
| WorkspaceFs.WorkspaceFileSystem.WriteFile | page/src/workspace_fs.ts:130-157 | succeeds exactly when allowed, keeps a file's identity, and changes nothing else; else says why |
| WorkspaceFs.WorkspaceFileSystem.Mkdir | page/src/workspace_fs.ts:159-164 | succeeds exactly when the name is free in an existing directory, and adds an empty one; else says why |
| WorkspaceFs.WorkspaceFileSystem.Delete | page/src/workspace_fs.ts:166-175 | succeeds exactly when something is there that may go, and takes away that subtree only; else says why |
| WorkspaceFs.WorkspaceFileSystem.Rename | page/src/workspace_fs.ts:177-212 | succeeds exactly when allowed, then has moved the subtree and nothing else; otherwise changes nothing and says why |
| LspHeaders.HeaderEndStays | page/src/lsp_protocol.ts:76-88 | bytes that come later do not move the end of a header |
| LspHeaders.DecimalOfDigits | page/src/lsp_protocol.ts:30 | the written length reads back as the number it was |
| LspHeaders.WrittenHeaderDeclares | page/src/lsp_protocol.ts:28-35 | the header that is written declares exactly the body's length to the reader |
| LspHeaders.WrittenHeaderEnds | page/src/lsp_protocol.ts:28-35 | the reader finds the end of a written header right behind it, whatever follows |
| LspHeaders.EveryHeaderHasLines | page/src/lsp_protocol.ts:53 | any header bytes are lines with terminators between them |
| LspHeaders.HeaderDeclares | page/src/lsp_protocol.ts:52-61 | a header with any terminators declares what one of its lines declares, unless another line declares something too or the number is no safe integer; the two refusals are told apart |
| LspHeaders.HeaderDeclaresNothing | page/src/lsp_protocol.ts:52-58 | a header none of whose lines declares a length is refused |
| LspFraming.DecidedFrameStays | page/src/lsp_protocol.ts:48-72 | a frame or an error once recognised is recognised the same with more bytes behind it |
| LspFraming.DecodeSplits | page/src/lsp_protocol.ts:40-74 | pushing two pieces gives the messages, remainder and error of pushing them joined |
| LspFraming.DecodeIsFraming | page/src/lsp_protocol.ts:40-74 | the stream is the frames of the decoded messages followed by what stays in the buffer, which is unfinished, or broken in the way the error says |
| LspFraming.FramingIsDecoding | page/src/lsp_protocol.ts:40-74 | whatever way a stream can be read as frames and an unfinished or broken rest, the decoder reads it that way |
| LspFraming.RestIsStuck | page/src/lsp_protocol.ts:48-72 | what stays in the buffer yields nothing by itself, and a broken frame stays broken |
| LspFraming.CuttingDoesNotMatter | page/src/lsp_protocol.ts:40-74 | however a stream is cut, buffer and error are those of the whole stream, and without an error so are the messages |
| LspFraming.EveryCutDeliversAll | page/src/lsp_protocol.ts:40-74 | every cut of a stream delivers all its messages if and only if the stream has no broken frame or no good one in front of it |
| LspFraming.CutDecidesDelivery | page/src/lsp_protocol.ts:40-74 | a good frame in front of a broken one is delivered when the stream is cut between them, and lost when it arrives whole |
| LspFraming.EncodedStreamDecodes | page/src/lsp_protocol.ts:28-89 | decoding the encoding of a message list gives the list and an empty buffer |
| LspFraming.RoundTrip | page/src/lsp_protocol.ts:28-89 | encode, cut anywhere, decode: the same messages and an empty buffer |
| LspFraming.RoundTripSoFar | page/src/lsp_protocol.ts:28-89 | while the stream is still arriving, the messages so far are the first ones and there is no error |
| LspFraming.LspFrameDecoder.Push | page/src/lsp_protocol.ts:40-74 | delivers the message of every complete frame and keeps an unfinished rest, or throws exactly because the first undelivered frame has a refused header or is complete and its body is no object; the same as the reference decoder |
| LspFraming.LspFrameDecoder.FindHeaderEnd | page/src/lsp_protocol.ts:76-88 | the first empty line, or -1 |
| LspInput.AsyncLspInputQueue.Push | scripts/rust_analyzer_minimal/lsp_stdin.ts:12-15 | appends one frame, and afterwards somebody waits only if everything has been read |
| LspInput.AsyncLspInputQueue.Read | scripts/rust_analyzer_minimal/lsp_stdin.ts:17-26 | answers with the next bytes of the stream, as many as asked for or all there are, or waits its turn |
| LspInput.AsyncLspInputQueue.Flush | scripts/rust_analyzer_minimal/lsp_stdin.ts:28-35 | answers waiting reads in the order they came, each once |
| LspInput.AsyncLspInputQueue.Take | scripts/rust_analyzer_minimal/lsp_stdin.ts:37-58 | copies exactly the next stretch of the stream across chunk borders |
| LspInput.ReadsDecodeToWhatWasPushed | scripts/rust_analyzer_minimal/lsp_stdin.ts:3-59 | for any read sizes the decoder makes of the answers a first part of the pushed messages, and all of them once all is read |
| BoundedHistory.DroppingTwice | page/src/terminal_channel_lifecycle.ts:51-65 | what an earlier append dropped is never needed later |
| BoundedHistory.FirstTail | page/src/terminal_channel_lifecycle.ts:34-47 | the first tail that decodes is the longest whole-character suffix that fits |
| TextEncodings.TailsDecode | page/src/terminal_channel_lifecycle.ts:34-47 | the last bytes of a text are the encoding of a tail of it, or start in the middle of a character |
| TextEncodings.PayloadOfEncoded | page/src/terminal_channel_lifecycle.ts:27-33 | a character can be read back from its UTF-8 bytes, of which there are as many as are counted |
| TextEncodings.BothCountsAgree | page/src/vfs_debug_trace.ts:26-47 | counting the bytes of UTF-16 code units gives the length of the UTF-8 text |
| BoundedHistory.AppendBounded | page/src/terminal_channel_lifecycle.ts:27-66 | computes what the model keeps, and the byte count is exact |
| BoundedHistory.AppendKeepsLongestSuffix | page/src/terminal_channel_lifecycle.ts:27-66 | one append keeps the longest whole-character suffix within the limit, if and only if it does not cut in front of a byte order mark |
| BoundedHistory.HistoryIsLongestSuffix | page/src/terminal_channel_lifecycle.ts:27-66 | after every one of any appends the history is the longest suffix of everything appended, if and only if none cuts in front of a byte order mark |
| BoundedHistory.MarkIsLost | page/src/terminal_channel_lifecycle.ts:34-47 | a value exactly as long as the limit that starts with a byte order mark is kept without the mark, although it would fit |
| BoundedHistory.HistoryWithoutMarks | page/src/terminal_channel_lifecycle.ts:27-66 | without byte order marks that is always so |
| RuntimeTerminal.AttachedViewMissesNothing | page/src/runtime_terminal_service.ts:59-142 | between any two moments a view that stays attached is given exactly what was written, once and in order |
| RuntimeTerminal.WrittenIsGood | page/src/runtime_terminal_service.ts:89-91 | a value goes to the attached view and behind what is pending for the one that catches up |
| RuntimeTerminal.ReactionKeepsCatchingUp | page/src/runtime_terminal_service.ts:118-135 | whatever a view calls back, an attach in progress is where it was or superseded for good |
| RuntimeTerminal.CaughtUp | page/src/runtime_terminal_service.ts:128-135 | with nothing pending a view has the history of its attach and everything written since |
| RuntimeTerminal.RuntimeTerminalService.Write | page/src/runtime_terminal_service.ts:59-99 | records and passes on one value; throws exactly when the attached view does, and whatever that view calls back it is not attached by the same handle afterwards, while a successor it has attached stays |
| RuntimeTerminal.RuntimeTerminalService.Attach | page/src/runtime_terminal_service.ts:101-142 | a view whose attach completes has got the history at the call and all later values once and in order, whatever is called meanwhile; the call throws exactly when the view does in its first write, and never if the view never throws; a view that never throws and only writes, to any depth, is attached; one that disposes of the service gets nothing more; one that is known only gets a new handle, which then is the one that ends it |
| RuntimeTerminal.RuntimeTerminalService.Detach | page/src/runtime_terminal_service.ts:186-198 | ends exactly what its handle was given for |
| RuntimeTerminal.RuntimeTerminalService.Run | page/src/runtime_terminal_service.ts:59-198 | any nested calls keep all that |
| SysrootRequests.NeverIssuedTwice | crates/vfs-shell/src/main.rs:188-205 | in every run ids are issued in increasing order |
| SysrootRequests.InvThroughout | crates/vfs-shell/src/main.rs:169-297 | in every run live ids are distinct and were issued |
| SysrootRequests.CancelledNeverReady | crates/vfs-shell/src/main.rs:219-290 | a request whose cancel returned 1 is never ready afterwards, in any run |
| SysrootRequests.RequestsAreAccountedFor | crates/vfs-shell/src/main.rs:188-273 | in every run the table holds exactly what was issued and not released |
| SysrootRequests.StateAfter | crates/vfs-shell/src/main.rs:207-289 | a load that was begun and not cancelled ends ready if and only if it did not fail, else with its error; a cancelled one ends cancelled; every other call leaves a request alone |
| SysrootRequests.StateTellsHistory | crates/vfs-shell/src/main.rs:188-289 | in every run a live request is pending, loading, ready or failed with an error exactly by how it was begun, cancelled and finished before |
| SysrootRequests.AnswersTellTheState | crates/vfs-shell/src/main.rs:207-289 | begin, cancel and release succeed exactly in the states they are for, and unknown ids answer as failed invalid requests |
| SysrootRequests.AdditionalSysrootRequests.Register | crates/vfs-shell/src/main.rs:188-205 | the table takes exactly the step of the model, wrap-around of the id counter included |
| SysrootRequests.AdditionalSysrootRequests.Finish | crates/vfs-shell/src/main.rs:219-242 | the table takes exactly the step that StateAfter and StateTellsHistory are about |
| SysrootRequests.AdditionalSysrootRequests.Cancel | crates/vfs-shell/src/main.rs:275-289 | the table takes exactly the step of the model |
| SysrootSessions.FreeSlotMeansFreeSession | page/src/vfs_readiness.ts:282-290 | whenever the table takes a request a hidden session is free, so that capacity error cannot happen |
| SysrootSessions.NewIdIsFresh | page/src/vfs_readiness.ts:282-290 | a new id has no session yet |
| SysrootSessions.TakingSession | page/src/vfs_readiness.ts:286-293 | giving a free session to a request keeps the partition of the eight |
| SysrootSessions.ReturningSession | page/src/vfs_readiness.ts:269-278 | freeing one keeps it |
| SysrootSessions.WithdrawnUnlessLoading | page/src/vfs_readiness.ts:302-308 | a failed start leaves its request in the table if and only if the guest is loading it at that moment |
| SysrootSessions.BegunRequestStays | page/src/vfs_readiness.ts:302-308 | in any table that takes a request, a start that fails after the guest has begun leaves the request behind |
| SysrootSessions.AdditionalSysrootEndpoint.Start | page/src/vfs_readiness.ts:279-310 | a start takes the first free session for a fresh id, or leaves sessions and free list as they were |
| SysrootSessions.AdditionalSysrootEndpoint.Release | page/src/vfs_readiness.ts:266-278 | a session is freed exactly when its request is released |
| SysrootClient.RunAcceptedTargetExtraction | page/src/app_startup_lifecycle.ts:142-200 | for any answers: cancels at most once, only when late, and always before the state is asked for again; releases at most once, last, and right after a final state; returns normally only after state ready and release 1, without a cancel; and each other outcome has its cause in the answers |
| Utf16Text.BytesSplit | page/src/vfs_debug_trace.ts:26-47 | sizes add up at every place that is not inside a surrogate pair |
| Utf16Text.BackwardAgrees | page/src/vfs_debug_trace.ts:49-74 | the character the backward scan takes is the one the forward scan ends with, lone surrogates included |
| Utf16Text.CutIsSuffix | page/src/vfs_debug_trace.ts:49-74 | where the backward scan stops is where dropping characters from the front first fits |
| Utf16Text.Utf8ByteLength | page/src/vfs_debug_trace.ts:26-47 | the forward scan computes the UTF-8 size |
| Utf16Text.Utf8Suffix | page/src/vfs_debug_trace.ts:49-74 | the backward scan computes the longest suffix that fits |
| TraceCollector.SnapshotStartsWithMarker | page/src/vfs_debug_trace.ts:76-87 | a chunk has a latest snapshot line exactly when it contains the marker, and the line starts with it |
| TraceCollector.LatestSnapshotIsLastLine | page/src/vfs_debug_trace.ts:76-83 | the snapshot line starts at the last marker of the chunk and runs to the end of its line, without a carriage return |
| TraceCollector.CutFits | page/src/vfs_debug_trace.ts:100-122 | what is kept of a chunk always fits the limit |
| TraceCollector.CutKeepsSnapshot | page/src/vfs_debug_trace.ts:103-120 | a snapshot line that fits survives the cut of its chunk |
| TraceCollector.CutMakesNoSnapshot | page/src/vfs_debug_trace.ts:103-120 | a chunk without a snapshot does not become one by being cut |
| TraceCollector.OneMoreGone | page/src/vfs_debug_trace.ts:132-142 | the next eviction removes the oldest chunk that is not the latest snapshot |
| TraceCollector.LatestStays | page/src/vfs_debug_trace.ts:132-142 | evictions never take the latest snapshot |
| TraceCollector.VfsDebugTraceCollector.Push | page/src/vfs_debug_trace.ts:100-143 | retained bytes are the exact sum and within the limit, as few of the oldest chunks as possible go, what was cut or evicted is counted, and a fitting snapshot becomes and stays the latest until another comes |
| TraceCollector.VfsDebugTraceCollector.Evict | page/src/vfs_debug_trace.ts:132-142 | the fallback to the first chunk is never needed |
| TraceCollector.VfsDebugTraceCollector.Snapshot | page/src/vfs_debug_trace.ts:145-151 | the trace holds whatever the latest snapshot holds |

## Left out

- Limits on entries and bytes, I/O errors, unsupported file types, symbolic links and invalid names in the synchronisation code: every error return of that kind ends the run early. Entry digests add nothing to comparing bytes.
- Interference in the rechecked application happens at the recheck; a race between a recheck and the primitive that follows it is not modelled, and neither are two names of one inode in the VFS.
- The import of the host's sysroot and the computation of runtime exclusions from a child's environment.
- The iteration of ordered maps and stable sorts is modelled by listing a set in the order of its keys.
- In the handshake: generations, malformed messages, transfer lists, and `postMessage` that throws on the page. Promises are cells that settle once.
- The texts of errors and the callbacks `onFailure` and `onAdopted` of the handshake.
- Inode objects of the child file system and of the editor workspace are identities in a heap value that is replaced step by step; the maps inside keep no insertion order.
- In the request machine: cleanup callbacks do not throw; calls into the environment may abort the owner or deliver a result while they run, but do not call back into the bridge; argument decoding is one flag; and restoring is a flag there, with its meaning proved in `ChildFilesystem`.
- Timestamps, `stat`, `readFile` and `readdir` of the editor workspace, and listeners that throw.
- JSON as an algorithm: a message is assumed to parse back from its text, and bodies are decoded and parsed by a given function. Header bytes are read concretely. The conversion of arbitrary values to bytes before a push is left out.
- The copying of answers into guest memory in `lsp_stdin.ts`, the ordered sender and the message observer in `lsp_protocol.ts`.
- In the terminal service: one session at a time, decoders, the separate captures of output and errors (they use the same append), sizes, and views that call back for ever.
- SysrootRequests.NeverIssuedTwice: calls with id 0, which would find an empty slot, are excluded; the lock makes every call one step.
- Close dispatches of hidden sessions do not throw. Transport timeouts and the report of a failed worker are one failing answer of the endpoint.
- The pump that drains the trace, its host-call wrapper, and a fractional limit of the trace.
- The shell, the session loop, rendering, editors, caches and build scripts: large, with little that spans functions.
