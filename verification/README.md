# Verified model of the Londi Agent OS orchestrator

This project models the parts of the local orchestrator for agent runs whose contracts are hard to get right, and proves
what holds of them over all inputs, all runs and all interleavings. `dafny verify dfyconfig.toml` checks it.

| component | modules | main result |
|---|---|---|
| hash-bound approvals | `JsonText`, `CanonicalJson`, `Approvals`, `AcceptanceGate` | the canonical JSON printer is uniquely readable, hence injective up to key order, hence Gate A and Gate E accept exactly what was shown |
| audit export | `AuditCsv` | the CSV printer is inverted by a parser for section 2 of RFC 4180 with LF line ends |
| event stream | `EventStore`, `SseStream`, `SseClient`, `SseResume` | resume is exactly-once and in order over any interleaving of server and client, as long as every reconnect keeps the place: always with the client's cursor in the header, and exactly when no visible event lies between otherwise |
| run lifecycle | `StateMachine`, `MergeCleanup`, `CleanupTraces`, `Workspace` | what every accepted trace went through; when cleanup loses no work, with a trace for each way it does; workspaces stay exclusive under stale plans and faults |
| files | `LogRotation`, `BackupRestore`, `BackupRetention` | rotation conserves a suffix, also when rotations stop part way; backup then restore is the identity; retention is the top of each mode, with the exact condition on shared ids |
| durable effects | `CommandPipeline`, `Idempotency` | crash consistency of the staged commands; at-most-once execution, and the SQLite store refines the map |
| processes | `ProcessManager`, `CheckpointScheduler`, `SafeShutdown`, `Supervision` | end states are final in every interleaving; a shutdown is sure to close its children exactly when none is being cancelled; supervision bands |
| connector | `HostCache`, `Sanitize`, `RunStore`, `RunProgress`, `RunOverlap` | freshness and rate of the cache; the store agrees with its file, across restarts and failing writes; runs only move forward, with the exact condition when calls overlap |
| reviews | `CorrectionCycle` | the correction counter is bounded and explained entry by entry |

`Wrappers`, `Clock` and `Sequences` hold shared definitions.

## How the model is built

Code that computes values is modelled by datatypes and functions. Code that changes things step by step is modelled by classes and
methods with the same loops; each method is proved against a function or relation on states, and the long-run results are lemmas about any sequence of those
steps. Asynchronous code (cancel, shutdown, the stream) is cut into the turns between which anything else may run.

Files are maps from path to bytes; the database is its tables with BEGIN, COMMIT and ROLLBACK; Git is refs, worktrees and a commit DAG. Every call to them may fail;
where a caller could be interrupted, it may be interrupted. SHA-256 is a function parameter, and only the lemmas that name `CollisionFree` assume that it does not collide.
Clock readings, random names, executor results and the answers of the regular-expression secret scan are parameters.

## Where the code does less than one would expect

The model follows the code. Each point is a lemma with the exact condition or a concrete run.

- A decision does not change its request, so nothing enforces single use (`Approvals.DecisionsAreNotSingleUse`), although docs/approvals.md says that decided requests cannot be used again.
- Service shutdown from Preflight Running, and Retry after a failed preparation, reach Running without Gate A or the worktree guard (`StateMachine.RunningWithoutApproval`, `RunningWithoutWorktree`); `PastApproval` and `PastWorkspaceMeansReady` say exactly when.
- A merge verified by patch equivalence alone promises nothing about the target branch (`CleanupTraces.PatchEquivalenceLosesWork`). Completion does not look at whose merge a Gate F result verified, nor cleanup at commits made since, and the completion date is the caller's, so commits are lost in each of these ways too (`ForeignResultLosesWork`, `MovedBranchLosesWork`, `UncontainedIsLost`); `NoWorkLost` says when they are not.
- A cleanup plan for a run in Needs Attention is executed without another look, so a run retried meanwhile loses its uncommitted work (`CleanupTraces.StalePlanLosesEditsIff`).
- The client puts its cursor in the URL of a connect and the server reads only the `Last-Event-ID` header, so a reconnect through the client alone is answered from the start of the store and delivers events again (`SseResume.ConnectIff`, `ReconnectDuplicates`). A transport that keeps the id of the reset frame skips events instead (`ResetIdSkips`).
- On a stream reset the client keeps its old cursor, so it is reset again for ever (`SseResume.ResetIsSticky`); the default heartbeat rewinds the cursor (`DefaultHeartbeatRewinds`, `BeatIff`); a parsed request with a null cursor loses its filter; the run filter works after the limit.
- A backup source named like the manifest is overwritten by it (`BackupRestore.ManifestNameIsClobbered`).
- The ids that retention keeps are shared by all modes, so an id used twice can keep more than a limit (`BackupRetention.KeepsTopIff`, `SharedIdExceedsLimit`).
- A rollback that fails leaves the transaction open and every later command fails (`CommandPipeline.StuckIsForever`). A command on a missing run is logged all the same unless its event names a missing row (`MissingRunLoggedIff`).
- Every checkpoint scheduler counts from one, so a second one of the same run replaces the first one's files (`CheckpointScheduler.SecondSchedulerReplaces`).
- A body whose result cannot be stored runs again on the next call (`Idempotency.RunsTwiceIff`).
- A shutdown skips attempts that are already Cancelling and still reports its children as closed (`SafeShutdown.ClosesIffNoneCancelling`), also when somebody else cancels them meanwhile (`ConcurrentCancelIsSkipped`).
- The workspace lock taken by validation is kept when creation fails; a failed manifest write leaves branch and worktree; lock keys join path and branch without escaping (`Workspace.FailedCreationRestores`, `LockKeysShared`).
- A failed branch lookup during cleanup counts as an absent branch (`Workspace.CompletedLeavesBranchIff`).
- A producer that throws is not limited by the cache (`HostCache.ThrowingIsNotLimited`).
- A slug cut after a dash changes on the next normalisation and splits a run in two; blank input throws after the run was queued (`RunProgress.CutIdSplitsRun`, `BlankInputStaysQueued`); a failed write of a finished run records a succeeded run as failed (`RunProgress.LateFailureTurnsSuccess`). A call that waited for its executor stores its old record whatever happened to the run meanwhile (`RunOverlap.OverlapProgressIff`, `RefreshDuringCreate`).
- An extra correction cycle with an approved exception is refused by the guard of the state machine, and so is an ordinary one for a critical finding that is not sensitive (`CorrectionCycle.GuardAgreesWithCycle`, `CriticalFindingIsRefused`).

## Model

| member | source | states |
|---|---|---|
| JsonText.EscapeRoundTrip | packages/orchestrator/src/approvals.js:128-132 | a JSON string parser recovers every string from its escaped form, lone surrogates and control characters included |
| JsonText.DigitsRoundTrip | packages/orchestrator/src/approvals.js:128-132 | a decimal parser recovers every integer, whatever follows that is not a digit |
| CanonicalJson.StablePrintsCanon | packages/orchestrator/src/approvals.js:128-132 | the stable printer prints the value with the keys of every object sorted, at every depth |
| CanonicalJson.RoundTrip | packages/orchestrator/src/approvals.js:128-132 | the plain JSON text of any tree is read back, followed by anything that does not begin with a digit |
| CanonicalJson.StableJsonReadable | packages/orchestrator/src/approvals.js:128-132 | unique readability: a parser recovers the key-sorted value from the stable text and leaves exactly what follows it |
| CanonicalJson.StableJsonInjective | packages/orchestrator/src/approvals.js:128-132 | two values print alike exactly when they are equal up to key order |
| CanonicalJson.CanonIffSame | packages/orchestrator/src/approvals.js:128-132 | sorting keys at every depth identifies exactly the values that are equal up to key order |
| CanonicalJson.StableJsonPaired | packages/orchestrator/src/approvals.js:107-109 | the stable text has no lone surrogate, so hashing its UTF-8 encoding loses nothing |
| Approvals.HashIffSame | packages/orchestrator/src/approvals.js:107-109 | with a collision-free hash, payload hashes agree exactly when the payloads are equal up to key order |
| Approvals.DecisionsAreNotSingleUse | packages/orchestrator/src/approvals.js:66-79 | a decision leaves the request as it was: whatever can be approved can be rejected afterwards, and the other way round |
| Approvals.InvalidationIsPermanent | packages/orchestrator/src/approvals.js:100-105 | an invalidated request stays invalidated through any changes, and every decision on it is refused |
| Approvals.ChainOutcome | packages/orchestrator/src/approvals.js:231-235 | after any chain of changes the request is untouched if every change in force showed the same payload, and invalidated otherwise |
| Approvals.ApproveIffPayloadUnchanged | packages/orchestrator/src/approvals.js:224-235 | Gate A safety: approve succeeds exactly when every configuration of the chain had the payload first shown, both hashes match and it has not expired |
| AcceptanceGate.SnapshotIffCreated | packages/orchestrator/src/acceptance-gate.js:18-42 | the check of a snapshot passes exactly what the constructor makes of its fields |
| AcceptanceGate.SameFields | packages/orchestrator/src/acceptance-gate.js:140-144 | objects listing the same keys in the same order are equal exactly when their values are, one by one |
| AcceptanceGate.SameContentSamePayload | packages/orchestrator/src/acceptance-gate.js:65-73 | snapshots with the same content up to key order lead to the same Gate E payload |
| AcceptanceGate.SnapshotChainOutcome | packages/orchestrator/src/acceptance-gate.js:96-103 | after any chain of snapshots the request is untouched if every valid one kept the content, and invalidated otherwise |
| AcceptanceGate.AcceptDecides | packages/orchestrator/src/acceptance-gate.js:75-94 | accept looks at the state of the request, its two hashes and its expiry, and at nothing else |
| AcceptanceGate.AcceptIffSnapshotUnchanged | packages/orchestrator/src/acceptance-gate.js:75-121 | Gate E safety: accept succeeds exactly when every valid snapshot kept the locked content, both hashes match and it has not expired |
| EventStore.AfterIsSuffix | packages/orchestrator/src/event-store.js:37-39 | in a log with increasing ids, the events after an id are a suffix of the log |
| EventStore.InMemoryEventStore.AppendEvent | packages/orchestrator/src/event-store.js:25-29 | an event is appended with a fresh, higher id; a refused one changes only the counter, leaving a hole in the numbering |
| EventStore.InMemoryEventStore.AppendAudit | packages/orchestrator/src/event-store.js:30-36 | an audit entry is stored exactly when it references an event of the log and is complete |
| EventStore.InMemoryEventStore.ListEvents | packages/orchestrator/src/event-store.js:37-39 | the listing is a bounded prefix of a suffix of the log |
| EventStore.InMemoryEventStore.ListAudit | packages/orchestrator/src/event-store.js:40-44 | the listing holds exactly the positions of the trail whose entry belongs to the run, or all of them, in the order of the trail |
| EventStore.InMemoryEventStore.AppendEventAndAudit | packages/orchestrator/src/event-store.js:60-64 | the audit entry references the event of the same call; when it is incomplete the event stays |
| AuditCsv.CellRoundTrip | packages/orchestrator/src/event-store.js:114-117 | a cell with any quotes, commas and line ends is read back by the rules of section 2 of RFC 4180 |
| AuditCsv.TableRoundTrip | packages/orchestrator/src/event-store.js:70-74 | every cell of every row of a printed table is read back |
| AuditCsv.AuditCsvRoundTrip | packages/orchestrator/src/event-store.js:70-74 | the export is invertible: the header, then the cells of every entry |
| AuditCsv.TypedCellsReadBack | packages/orchestrator/src/event-store.js:70-74 | the metadata and event id cells parse back to the values they were printed from |
| SseStream.BatchEmptyIff | apps/local-api/src/sse-stream.js:54-64 | the run filter works after the limit: a batch is empty exactly when none of the first `limit` events belongs to the run |
| SseStream.NullCursorLosesFilter | apps/local-api/src/sse-stream.js:55 | a parsed request with a null cursor loses its run filter and limit |
| SseClient.ClientState.TransitionConnection | apps/ui/src/client-state.js:35-40 | a missing cursor or attempt keeps the old one, a missing error clears it |
| SseClient.ClientState.RecordUiEvent | apps/ui/src/client-state.js:42-46 | the list holds the last 200 events ever recorded, in order |
| SseClient.ClientState.Connect | apps/ui/src/sse-client.js:16-22 | the connection state after a connect, and that the request carries the cursor only in its URL, with no header |
| SseClient.ClientState.Disconnect | apps/ui/src/sse-client.js:23-27 | a disconnect keeps the cursor and records its reason |
| SseClient.ClientState.HandleEvent | apps/ui/src/sse-client.js:28-37 | a reset counts as a reconnect attempt and keeps the cursor; any other event is accepted and moves it |
| SseClient.DelayMonotone | apps/ui/src/client-state.js:48-52 | for real factors and delays, with the rounding of the code, the reconnect delay never shrinks with the attempts and never passes its cap |
| SseResume.AcceptNext | apps/ui/src/sse-client.js:28-37 | accepting the next visible event moves exactly that event from what is to come to what was seen |
| SseResume.ResumeIsExactlyOnce | apps/ui/src/sse-client.js:28-37 | over any interleaving of appends, floor advances, drops, deliveries, disconnects and reconnects that each keep the place, the accepted events are exactly the visible events between start and cursor: no gap, no duplicate, a prefix of the filtered log |
| SseResume.HeadersKeepPlace | apps/local-api/src/sse-stream.js:45-52 | reconnects that repeat the client's cursor in the Last-Event-ID header keep the place, whatever happens between them |
| SseResume.ConnectIff | apps/local-api/src/sse-stream.js:45-63 | with any cursor or none in the header, a reconnect stays exactly-once if and only if the header repeats the client's cursor, or the first batch from the header's position shows nothing (or the request is refused or reset), or no visible event lies between that position and the cursor |
| SseResume.ResetIdSkips | apps/local-api/src/sse-stream.js:83-99 | a transport that comes back with the id of the reset frame, the floor, skips exactly the visible events between cursor and floor |
| SseResume.BeatIff | apps/local-api/src/sse-stream.js:81-82 | a heartbeat that carries an id puts the client out of place exactly when it steps over a visible event |
| SseResume.ReconnectDuplicates | apps/ui/src/sse-client.js:16-22 | a client that has accepted the one event of the log and connects again accepts it a second time |
| SseResume.BelowFloorIsReset | apps/local-api/src/sse-stream.js:56-58 | a cursor below the floor that reaches the server is answered by a reset alone, and a refused limit by nothing |
| SseResume.ResetIsSticky | apps/ui/src/sse-client.js:30 | the client keeps its cursor on a reset, so below the floor no continuation whose headers and heartbeats follow that cursor moves it or delivers an event |
| SseResume.ResumeElsewhereIff | apps/local-api/src/sse-stream.js:59-63 | resuming from another position delivers the same events exactly when no visible event lies between |
| SseResume.DefaultHeartbeatRewinds | apps/local-api/src/sse-stream.js:81-82 | the default heartbeat carries id 0 and rewinds the cursor |
| SseResume.UrlCursorIsIgnored | apps/local-api/src/sse-stream.js:45-52 | the cursor in the URL of a connect is never read: the request is answered as one without a cursor |
| StateMachine.FinalIffStuck | packages/orchestrator/src/state-machine.js:119-125 | a state is final exactly when it admits no event under any context |
| StateMachine.MaintenanceHoldUnreachable | packages/orchestrator/src/state-machine.js:46-101 | no accepted trace reaches Maintenance Hold |
| StateMachine.OnlyWayToCompleted | packages/orchestrator/src/state-machine.js:73 | completion comes only from Accepted by a verified merge with its whole guard |
| StateMachine.CompletedEndsWith | packages/orchestrator/src/state-machine.js:68-73 | every trace to Completed ends with pipeline success, accept and verified merge, each with its guard |
| StateMachine.PastApproval | packages/orchestrator/src/state-machine.js:46-101 | a run past the approval states took Gate A with its guard true if and only if no shutdown was taken in Preflight Running |
| StateMachine.RunningMeansApproved | packages/orchestrator/src/state-machine.js:51 | a running run took Gate A with its guard true if and only if no shutdown was taken in Preflight Running |
| StateMachine.RunningWithoutApproval | packages/orchestrator/src/state-machine.js:99 | the exception is real: shutdown from Preflight Running, then resume, runs without Gate A |
| StateMachine.PastWorkspaceMeansReady | packages/orchestrator/src/state-machine.js:53-54 | a run past its workspace left it exactly once, by one of four exits; it was ready, with Git, access rights, lock and base commit valid, exactly when it was neither a failed preparation nor a shutdown, there or in Preflight Running |
| StateMachine.RunningWithoutWorktree | packages/orchestrator/src/state-machine.js:75 | from every trace to Preparing Workspace, failure and retry run without the worktree guard |
| StateMachine.StepStartsPrepared | packages/orchestrator/src/state-machine.js:80-95 | every step trace starts with prepare and then start, each with its guard, or a skip that ends it |
| MergeCleanup.ReachesContains | packages/orchestrator/src/manual-merge.js:37-75 | if the branch head is an ancestor of the target, every commit the branch reaches is reachable from the target |
| MergeCleanup.ReachesUnchanged | packages/orchestrator/src/manual-merge.js:37-75 | new commits never change reachability between old ones |
| MergeCleanup.CompletesIff | packages/orchestrator/src/completion-retention.js:15-41 | a run completes exactly when it is accepted with a date and Gate F was verified |
| MergeCleanup.TriggerAgreesWithPlan | packages/orchestrator/src/completion-retention.js:43-65 | the announced cleanup date is the moment the cleanup plan becomes eligible |
| MergeCleanup.CreateWorkspaceCleanupPlan | packages/orchestrator/src/workspace-manager.js:290-322 | the plan is eligible exactly when no reason was collected, and each of its reasons is collected exactly when it applies |
| CleanupTraces.NoWorkLost | packages/orchestrator/src/manual-merge.js:37-75 | in every trace in which anything may happen to branches, gates verify any branch and runs complete with any result: deleting a branch means a completed run, seven days since the recorded completion date, and for a verification of the own branch whose head has not moved since, all its commits are reachable from the recorded target if it was verified by ancestry, and only if, unless the ancestry command failed |
| CleanupTraces.UncontainedIsLost | packages/orchestrator/src/completion-retention.js:15-41 | whatever verified result completes an accepted run, its branch can be deleted after any wait, as the completion date is the caller's; commits are lost exactly when the recorded target commit does not reach the head |
| CleanupTraces.PatchEquivalenceLosesWork | packages/orchestrator/src/manual-merge.js:52-55 | a trace from an initial world in which a merge verified by an equal patch alone loses the commits of its branch |
| CleanupTraces.ForeignResultLosesWork | packages/orchestrator/src/completion-retention.js:72-77 | a trace in which the result of another run and branch, verified by ancestry, completes a run whose commits are then lost |
| CleanupTraces.MovedBranchLosesWork | packages/orchestrator/src/workspace-manager.js:338-346 | a trace in which a commit made on the branch after its verification by ancestry is lost |
| CleanupTraces.StalePlanLosesEditsIff | packages/orchestrator/src/workspace-manager.js:324-336 | a plan just made can remove a worktree with newer uncommitted work, in some continuation, if and only if its run is in Needs Attention |
| CleanupTraces.StalePlanLeftAttention | packages/orchestrator/src/workspace-manager.js:324-336 | in any trace, a removal takes newer work only if the run left Needs Attention after the plan |
| MergeCleanup.UnreadableDateIsEligible | packages/orchestrator/src/workspace-manager.js:300-301 | an unreadable completion date never holds the cleanup back |
| Workspace.BranchNameIsSafe | packages/orchestrator/src/workspace-manager.js:33-37 | a branch name is the prefix and one to twelve lower-case letters, digits and single dashes |
| Workspace.SlugsCollide | packages/orchestrator/src/workspace-manager.js:33-37 | run ids that begin with the same twelve letters and digits share one branch name, whatever follows |
| Workspace.LockKeysShared | packages/orchestrator/src/workspace-manager.js:458-460 | two pairs share a lock key if and only if they are equal, or one is (p, x#c) and the other (p#x, c) for some p, x and c |
| Workspace.LockKeysDiffer | packages/orchestrator/src/workspace-manager.js:458-460 | for branch names without a number sign, lock keys agree exactly when repository and branch do |
| Workspace.LockKeysCollide | packages/orchestrator/src/workspace-manager.js:458-460 | for every repository, text and branch there is another repository with the same key |
| Workspace.LockStore.Acquire | packages/orchestrator/src/workspace-manager.js:424-432 | a lock is taken exactly when it is free or already held by the same run |
| Workspace.LockStore.Release | packages/orchestrator/src/workspace-manager.js:433-441 | only the owner removes a lock; a missing one is no error |
| Workspace.Repository.CreateRunWorkspace | packages/orchestrator/src/workspace-manager.js:44-74 | validation, lock, branch, worktree and manifest in order, with every failure leaving the stated refs, worktrees and locks |
| Workspace.FailedCreationRestores | packages/orchestrator/src/workspace-manager.js:53-74 | a failed creation leaves something behind if and only if branch and path were free and the branch was made, and then either the worktree was refused and the branch could not be deleted again, or the manifest write failed; and exactly when a creation succeeds |
| Workspace.Repository.ExecuteWorkspaceCleanupPlan | packages/orchestrator/src/workspace-manager.js:324-349 | the repository after a cleanup, and which actions were done rather than already absent |
| Workspace.FaultyCleanupIsPartial | packages/orchestrator/src/workspace-manager.js:324-349 | whatever calls fail, a cleanup leaves one of its intermediate states |
| Workspace.CleanupConverges | packages/orchestrator/src/workspace-manager.js:324-349 | cleanup interrupted or failed any number of times and then run again ends like one uninterrupted run |
| Workspace.CompletedLeavesBranchIff | packages/orchestrator/src/workspace-manager.js:338-346 | a cleanup that completed left the branch exactly when it need not delete it or the lookup failed |
| Workspace.CleanupKeepsPresent | packages/orchestrator/src/workspace-manager.js:341 | a stale cleanup plan cannot delete the branch of another live run |
| Workspace.LiveRunsAreExclusive | packages/orchestrator/src/workspace-manager.js:44-84 | over all traces with any faults, live runs never share a branch or worktree, and theirs are still there |
| Workspace.LockIsKept | packages/orchestrator/src/workspace-manager.js:421-446 | a run that holds a lock stays its only owner until it releases it |
| LogRotation.CreateLogRotationPolicy | packages/orchestrator/src/performance-scale-validation.js:69-72 | a policy is accepted exactly when both limits are at least one |
| LogRotation.LogFolder.ShiftParts | packages/orchestrator/src/performance-scale-validation.js:80-87 | the descending rename loop moves every part up one place and overwrites only the last |
| LogRotation.LogFolder.RotateLogIfNeeded | packages/orchestrator/src/performance-scale-validation.js:74-92 | the content of every path after a call, and a report of exactly the parts that exist |
| LogRotation.InterruptedLosesOnlyOldest | packages/orchestrator/src/performance-scale-validation.js:80-87 | a rename loop that stops early has lost at most the oldest part |
| LogRotation.RotationRefines | packages/orchestrator/src/performance-scale-validation.js:80-89 | on parts 1..k the renames perform the abstract rotation |
| LogRotation.RotationConservesSuffix | packages/orchestrator/src/performance-scale-validation.js:74-92 | after any appends and whole rotations the parts are 1..k with k at most the limit, parts and log are a suffix of everything written, nothing is missing while a slot is free, and at least maxParts times maxBytes bytes are kept or all |
| LogRotation.StopsConserveSuffix | packages/orchestrator/src/performance-scale-validation.js:74-92 | after any appends and rotations that may each stop anywhere and are continued by later ones: places and log in order are a suffix of everything written, nothing is missing while the last place is vacant, and otherwise at least maxBytes bytes of old parts are kept |
| BackupRestore.CreateBackupManifest | packages/orchestrator/src/backup-manager.js:31-55 | a manifest is made exactly when there is an id and a source, and every source exists and is not refused; it lists every source with its size and hash, in order |
| BackupRestore.Disk.WriteBackup | packages/orchestrator/src/backup-manager.js:57-75 | copies in order, stopping at the first missing or drifted source, then the manifest last |
| BackupRestore.Disk.VerifyBackupIntegrity | packages/orchestrator/src/backup-manager.js:77-90 | verified exactly when every listed copy exists with its hash; the failures are listed in order |
| BackupRestore.WriteThenVerify | packages/orchestrator/src/backup-manager.js:57-90 | a fresh backup verifies exactly when colliding paths carry equal hashes and the manifest overwrote no copy |
| BackupRestore.ManifestNameIsClobbered | packages/orchestrator/src/backup-manager.js:71-72 | a single source named like the manifest is overwritten by it, so the backup verifies only if its content was that very manifest |
| BackupRestore.CreateRestorePlan | packages/orchestrator/src/restore-workflow.js:22-50 | a plan is executable only for an intact backup with no run active |
| BackupRestore.Disk.ExecuteRestorePlan | packages/orchestrator/src/restore-workflow.js:64-86 | refusals, and the effect of restoring entry by entry through a temporary file |
| BackupRestore.RestoreIffIntact | packages/orchestrator/src/restore-workflow.js:71-81 | with targets apart from the backup, a restore succeeds exactly when the backup verifies, every target is its copy and all other files are untouched |
| BackupRestore.Disk.VerifyRestoredHealth | packages/orchestrator/src/restore-workflow.js:88-103 | healthy exactly when every restored file has its hash and the preflight is not blocked |
| BackupRestore.BackupThenRestore | packages/orchestrator/src/restore-workflow.js:64-86 | backup then restore is the identity: every target equals its source at manifest time, all else is untouched, and the health check passes |
| BackupRetention.PlanIsPartition | packages/orchestrator/src/backup-manager.js:104-121 | keep and delete share out the input, each newest first |
| BackupRetention.KeepsTopIff | packages/orchestrator/src/backup-manager.js:104-121 | for any backups, a mode keeps exactly its newest up to its limit if and only if none of its backups past the limit carries an id found within the limit of some mode |
| BackupRetention.KeepsTopOfMode | packages/orchestrator/src/backup-manager.js:106-115 | with unique ids, each mode keeps exactly its newest backups up to its limit |
| BackupRetention.KeepsLimit | packages/orchestrator/src/backup-manager.js:110-114 | each mode keeps the smaller of its limit and its count |
| BackupRetention.DeletedIsNotNewer | packages/orchestrator/src/backup-manager.js:106-119 | if a mode keeps no id past its limit, no deleted backup of it is newer than a kept one |
| BackupRetention.ReplanKeepsAll | packages/orchestrator/src/backup-manager.js:104-121 | for any backups, planning again over the kept ones deletes nothing |
| BackupRetention.SharedIdExceedsLimit | packages/orchestrator/src/backup-manager.js:110-114 | an id that any mode keeps, carried past the limit of a mode, makes that mode keep more than its limit |
| BackupRetention.WeeklyIdKeepsDaily | packages/orchestrator/src/backup-manager.js:110-114 | the id of a kept weekly backup keeps an old daily one beyond the daily limit |
| CommandPipeline.Database.RunStatements | packages/orchestrator/src/command-pipeline.js:82-98 | the statements of a transaction, with the audit entry referencing the event just inserted |
| CommandPipeline.Database.Transact | packages/orchestrator/src/command-pipeline.js:78-104 | commit or roll back; what survives a crash changes exactly when the transaction commits, even if the rollback fails |
| CommandPipeline.Host.WriteAtomicArtifact | packages/orchestrator/src/command-pipeline.js:60-76 | the artifact path holds the old or the new content, never a part |
| CommandPipeline.Host.Execute | packages/orchestrator/src/command-pipeline.js:23-58 | the staged execution has the stated effect on the durable tables, publications and files |
| CommandPipeline.CrashConsistency | packages/orchestrator/src/command-pipeline.js:23-104 | for any commands with failures anywhere: the i-th audit entry references the i-th event, ids increase, each commit added its own event, which names existing rows, revisions grew by their commits, and publications are those of the commits whose artifact matched |
| CommandPipeline.ChangesIffCommits | packages/orchestrator/src/command-pipeline.js:78-104 | the tables change exactly when no stage fails up to the end of the transaction and the schema accepts the command: target state, completion trigger, foreign keys, new audit id |
| CommandPipeline.PublishedInOrder | packages/orchestrator/src/command-pipeline.js:51 | published events are an in-order subsequence of the committed ones |
| CommandPipeline.MismatchIsNotPublished | packages/orchestrator/src/command-pipeline.js:39-48 | a required artifact mismatch keeps the committed event unpublished |
| CommandPipeline.StuckIsForever | packages/orchestrator/src/command-pipeline.js:100-102 | after a failed rollback no later command commits anything |
| CommandPipeline.MissingRunLoggedIff | packages/orchestrator/src/command-pipeline.js:83-91 | a command on a missing run changes no run, and is logged, event and audit entry, if and only if its event names no missing run or step; naming that run rolls everything back |
| Idempotency.IdempotencyStore.WithIdempotency | packages/orchestrator/src/idempotency.js:47-66 | the reply and state of a call, and how often the body ran |
| Idempotency.AtMostOnce | packages/orchestrator/src/idempotency.js:47-66 | once a key is recorded every later call is answered from that record: other fingerprints are refused, an Unknown effect is never replayed, else the first result |
| Idempotency.ExecutesIff | packages/orchestrator/src/idempotency.js:62-65 | a body runs exactly when its key was not recorded before |
| Idempotency.SqliteRefinesMemory | packages/orchestrator/src/idempotency.js:68-92 | on JSON results the SQLite store answers every call of every sequence as the map does |
| Idempotency.RunsTwiceIff | packages/orchestrator/src/idempotency.js:28-35 | two calls run a body twice exactly when its result cannot be stored: no JSON text for SQLite, not cloneable for the map; and when the two stores answer the second call alike |
| ProcessManager.AttemptProcessManager.StartAttempt | packages/orchestrator/src/process-manager.js:23-60 | an attempt starts exactly once per id |
| ProcessManager.AttemptProcessManager.OnExit | packages/orchestrator/src/process-manager.js:50-56 | the exit handler ends the attempt and any wait for it |
| ProcessManager.AttemptProcessManager.RequestCancel | packages/orchestrator/src/process-manager.js:62-69 | a cancel signals a running attempt and returns at once on any other |
| ProcessManager.AttemptProcessManager.OnKillTimeout | packages/orchestrator/src/process-manager.js:142-144 | the timeout sends SIGKILL and starts the grace period |
| ProcessManager.AttemptProcessManager.OnGraceOver | packages/orchestrator/src/process-manager.js:144 | the end of the grace period ends the wait |
| ProcessManager.AttemptProcessManager.ResumeCancel | packages/orchestrator/src/process-manager.js:70-76 | a cancel succeeds exactly when the exit was seen |
| ProcessManager.TraceIsSound | packages/orchestrator/src/process-manager.js:23-77 | in every interleaving an end status means exactly that the exit was seen, and SIGKILL only follows SIGTERM |
| ProcessManager.EndIsFinal | packages/orchestrator/src/process-manager.js:50-56 | a Cancelled or Exited attempt never changes again |
| CheckpointScheduler.IdsDiffer | packages/orchestrator/src/checkpoint-scheduler.js:28 | checkpoint ids of different numbers differ |
| CheckpointScheduler.Scheduler.Save | packages/orchestrator/src/checkpoint-scheduler.js:68-75 | a scheduler numbers its checkpoints 1..n without gaps even when writes fail and never replaces its own; it replaces a file exactly when one of the new number is already there |
| CheckpointScheduler.SecondSchedulerReplaces | packages/orchestrator/src/checkpoint-scheduler.js:63-75 | a second scheduler of a run replaces exactly the checkpoints of the first whose numbers it reaches |
| SafeShutdown.TraceKeepsProgress | packages/orchestrator/src/checkpoint-scheduler.js:87-97 | while a shutdown works every attempt it has passed has exited, and only its own cancel is open |
| SafeShutdown.ShutdownClosesChildren | packages/orchestrator/src/checkpoint-scheduler.js:87-108 | a shutdown that returns has closed every listed child and saved its checkpoint first, if none was Cancelling and nobody else cancels |
| SafeShutdown.CancellingIsSkipped | packages/orchestrator/src/process-manager.js:65 | in any list, an attempt that is already Cancelling is skipped: some run of the shutdown returns with it unchanged and its exit unseen |
| SafeShutdown.ClosesIffNoneCancelling | packages/orchestrator/src/checkpoint-scheduler.js:87-108 | without cancels by others, every run of the shutdown closes all listed attempts if and only if none of them is Cancelling when it begins |
| SafeShutdown.ConcurrentCancelIsSkipped | packages/orchestrator/src/process-manager.js:65 | an attempt cancelled by somebody else after the shutdown began is skipped in the same way |
| Supervision.AttemptSupervisor.RegisterAttempt | packages/orchestrator/src/process-manager.js:243-251 | an attempt is supervised once per id |
| Supervision.AttemptSupervisor.RecordHeartbeat | packages/orchestrator/src/process-manager.js:253-261 | a heartbeat is accepted exactly when it does not go back, and the attempt is then not silent |
| Supervision.AttemptSupervisor.EvaluateAttempt | packages/orchestrator/src/process-manager.js:263-268 | each of the five bands exactly by the silence, the run time and the thresholds; an unknown attempt is refused |
| Supervision.HeartbeatNeverGoesBack | packages/orchestrator/src/process-manager.js:253-261 | over any calls an attempt keeps its start and its last heartbeat never goes back |
| Supervision.SupervisionOverTime | packages/orchestrator/src/process-manager.js:206-227 | bands depend on silence alone, and without a heartbeat severity never improves |
| HostCache.HostConnectorCache.ReadCached | apps/local-api/src/host-connector.js:244-261 | the answer and entry after a read; other keys are untouched |
| HostCache.ServedIsFresh | apps/local-api/src/host-connector.js:248-250 | a served value is the last produced one and younger than its time to live |
| HostCache.CallsAreApart | apps/local-api/src/host-connector.js:256-261 | forced producer calls are ten seconds apart, unforced ones a time to live |
| HostCache.RateIsBounded | apps/local-api/src/host-connector.js:244-261 | any window of T ms holds at most T/10000 + T/TTL + 2 producer calls that return |
| HostCache.ThrowingLeavesNoTrace | apps/local-api/src/host-connector.js:251-252 | a producer that throws changes no entry, so every later read is answered as if it had not been called |
| HostCache.ThrowingIsNotLimited | apps/local-api/src/host-connector.js:251-252 | after any reads, a read whose producer throws can be repeated any number of times and calls it every time |
| Sanitize.TextTwice | packages/contracts/src/phase2-runtime.js:225-227 | normalising a text twice is normalising it once |
| Sanitize.BlankIff | packages/contracts/src/phase2-runtime.js:225-227 | a text normalises to nothing exactly when it is blank |
| Sanitize.SlugStableIff | packages/contracts/src/phase2-runtime.js:229-233 | a slug is its own slug exactly when the cut left no dash at its end |
| Sanitize.SlugTwice | packages/contracts/src/phase2-runtime.js:229-233 | the second normalisation of a slug is final |
| Sanitize.CutSlugChanges | packages/contracts/src/phase2-runtime.js:229-233 | a slug cut after a dash changes when normalised again |
| RunStore.StableIff | packages/contracts/src/phase2-runtime.js:139-160 | a record survives another normalisation exactly when no cut slug ends in a dash and no given text is blank |
| RunStore.ReloadIffStable | apps/local-api/src/host-connector.js:210-224 | reloading the file gives the same store exactly when every run is stable |
| RunStore.HostRuns.HydrateRunsFromDisk | apps/local-api/src/host-connector.js:210-224 | the loaded store, or a failure on an unreadable file or item |
| RunStore.HostRuns.PersistManualRun | apps/local-api/src/host-connector.js:233-238 | the store is updated, then the file holds the whole store unless the write failed |
| RunStore.HostRuns.CreateManualRun | apps/local-api/src/host-connector.js:176-207 | the records persisted by a creation, in order, and what it returns or that it throws, with any write failing; when it returns the file holds the store |
| RunStore.HostRuns.RefreshRuns | apps/local-api/src/host-connector.js:140-174 | the records persisted by a refresh of the runs stored when it began, with any write failing, and whether it throws |
| RunProgress.RunsMakeProgress | apps/local-api/src/host-connector.js:140-207 | from any loaded store, over any creations and refreshes that run one after another, with fresh, final ids and no late write failure, every run is queued, running, then succeeded or failed; a loaded run goes on from where it was |
| RunOverlap.OverlapProgressIff | apps/local-api/src/host-connector.js:140-207 | when creations and refreshes overlap, cut at their awaits, runs only move forward if and only if every call that resumes and stores something finds its run still running |
| RunOverlap.RefreshDuringCreate | apps/local-api/src/host-connector.js:140-207 | a refresh during a creation records a run as failed, and then the creation records it as succeeded |
| RunOverlap.CreateIsStartAndEnd | apps/local-api/src/host-connector.js:176-207 | the records of a creation are those before its await and those after it |
| RunProgress.ProgressIsOrdered | apps/local-api/src/host-connector.js:176-207 | of two records of one run, the first perhaps loaded, the later is further on, and nothing follows an end |
| RunProgress.StoreIsLast | apps/local-api/src/host-connector.js:233-238 | the store holds, once per id, the last record persisted |
| RunProgress.LoadIsDistinct | apps/local-api/src/host-connector.js:210-224 | a loaded store has each id once |
| RunProgress.ConnectorFollowsHistory | apps/local-api/src/host-connector.js:51-55 | a connector that begins with a loaded store behaves as one that had persisted those records itself |
| RunProgress.CutIdSplitsRun | apps/local-api/src/host-connector.js:179-182 | an id cut after a dash splits a run in two, with the queued one left behind |
| RunStore.HostRuns.PersistFinished | apps/local-api/src/host-connector.js:184-206 | the records that end an execution, the failed one when the first is refused or its write fails, and what is returned or that it throws |
| RunProgress.LateFailureTurnsSuccess | apps/local-api/src/host-connector.js:184-206 | a write that fails after a run ended records it as failed right after, against the order of progress |
| RunProgress.BlankInputStaysQueued | apps/local-api/src/host-connector.js:182 | blank input passes once, then throws and leaves the run queued |
| RunProgress.ReloadIsIdentity | apps/local-api/src/host-connector.js:226-238 | from any loaded store of stable runs, with slugs that fit and texts that are not blank, reading the file back gives the same store, whether or not writes fail |
| CorrectionCycle.GetHighestReviewSeverity | packages/orchestrator/src/review.js:133-142 | the highest severity among the findings, or a refusal of an unknown one |
| CorrectionCycle.CreateReviewArtifact | packages/orchestrator/src/review.js:26-65 | a review blocks exactly when a finding is high or critical, and then needs a fix |
| CorrectionCycle.CycleIsBounded | packages/orchestrator/src/correction-cycle.js:22-53 | the counter is the number of advances, exactly the first two without exception; critical-sensitive reviews never advance |
| CorrectionCycle.GuardAgreesWithCycle | packages/orchestrator/src/state-machine.js:68 | the state machine accepts an advance of the cycle if and only if it used no exception and the review has no critical finding |
| CorrectionCycle.CriticalFindingIsRefused | packages/orchestrator/src/correction-cycle.js:25-33 | a critical finding that is not sensitive advances the cycle without exception, while the guard refuses it |
| CorrectionCycle.HistoryGrows | packages/orchestrator/src/correction-cycle.js:40-53 | history is only appended to and the counter never goes back |

## Left out

- Fractions, exponents, `undefined`, NaN and -0 in JSON values; keys that look like array indices, which JavaScript reorders. Texts are sequences of UTF-16 code units.
- White space and malformed input in the parsers that invert the printers: they accept leading zeros and no white space, which the printers never write.
- SHA-256 itself, the patch hash of the merge gate (a parameter), and the UTF-8 encoding, of which only injectivity on texts without lone surrogates is used.
- Redaction, secret patterns and sanitising of UI payloads; the secret scan of the gates is a parameter.
- Path resolution: paths are normalised, joined by concatenation. Directory creation, and a path that is both a file and a directory, are not modelled.
- Unreadable dates in `createBackupRetentionPlan`, where the comparison is undefined for the sort; elsewhere they are modelled as never after anything.
- BackupRestore.CreateBackupManifest: which paths and contents are refused is a parameter; the kind, version and source root recorded in the manifest are left out.
- LogRotation.RotationConservesSuffix: rotations run to their end; `LogRotation.StopsConserveSuffix` continues those that stopped, with a smaller bound, because a rotation that stops can overwrite the last part while lower places are vacant.
- CleanupTraces.NoWorkLost: the Git commands of one verification are answered from one state of the repository; a run becomes Completed only through `completeRunAfterGateF`; a run's branch and worktree path do not change.
- CleanupTraces.StalePlanLosesEditsIff: a worktree is edited by the agents of its run, while it is running; edits by hand are not modelled.
- Workspace.Repository.CreateRunWorkspace: lower-casing of letters outside ASCII, the dirty-state listing and the contents of the manifest file are not modelled; whether the repository can be read is a parameter.
- CommandPipeline.Database.Transact: of the schema, the foreign keys of events, the completion trigger on updates and the key of audit entries are modelled; other constraints are covered as statements that may fail.
- RunStore.HostRuns.CreateManualRun: timestamps and skill ids of records, and the error code noted in a failed execution, are left out.
- RunStore.HostRuns.PersistManualRun: a failed write leaves the old file; a partly written one is not modelled.
- RunProgress.RunsMakeProgress: creations and refreshes do not overlap; those that do are in `RunOverlap.OverlapProgressIff`.
- Sanitize.SlugStableIff: does not model lower-casing of letters outside ASCII.
- Supervision.SupervisionOverTime: times are whole milliseconds; the recorded events are not modelled.
- Captured output, pids and the signals' effect on the operating system: a child may end at any time, or never.
- HTTP, dashboards, wizards and view models, secret and network grants, the tool catalogue, preflight checks, migrations, release traceability and the acceptance suites: presentation, tables, or harnesses over the code modelled here.
