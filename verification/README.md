# A verified model of codebase-graph's hard core

codebase-graph keeps a graph of a repository's source code and serves it to coding
agents. This project models the parts of it where correctness is not visible from any
single function: the glob matcher and the directory pruning built on it, the
single-owner coordinator and its retrying client, the crash-tolerant supervision of
worker processes, the content-addressed artifact store, the rewriting of agent hook
files, SHA-1, the bounded expansion of graph context, manifest diffing and the stream
readers.

Code that loops and updates state is a method (or a class) proved against a function or
a relation of its inputs. Protocols are state machines whose runs are arbitrary
sequences of steps; a crash, a failed system call, a lost reply or a spurious wake-up is
a step like any other, and the theorems hold at every index of every run. Where a
property fails for some inputs, the model keeps the code's behaviour and states exactly
when the property holds.

Results that go beyond what the code's comments say, or correct them:

- The matcher is the glob relation exactly for texts without a `*` byte
  (`Wildcard.MatcherIsGlobExactlyOnStarFreeTexts`).
- A directory tree of normalized paths is scanned exactly under every selection if and
  only if each file lies, and is not hidden by a `**` name, below the normal form of every
  directory above it (`SourceScan.PruningIsExactOnlyWhenWellPlaced`). An include pattern
  that turns into a comment once `./` is stripped prunes files it selects; which patterns
  do is decided by their text (`HiddenComments.IncludePrunesExactlyUnlessHidden`).
- Two owners never work at once if and only if the serving thread never unwinds from a
  panic while its worker lives (`CoordinatorOwnership.NoOverlapExactlyWithoutHarmfulPanics`).
- Two worker builds never overlap if and only if a failed look for the state file never
  reads as absent while a descriptor is there, which `exists` does not guarantee
  (`WorkerSupervision.NoOverlapExactlyWhenSighted`).
- One client call is submitted at most once, for every behaviour of owners and network,
  if and only if operations never answer with the coordinator's own two retry codes
  (`CoordinatorClient.AtMostOnceExactlyWithoutReservedErrors`).
- Removing hooks right after installing them restores a file if and only if its `hooks`
  was absent or an object and its events were tidy; a `hooks` value of any other kind is
  lost (`HookMerge.InstallThenRemove`, `HookMerge.NonObjectHooksAreLost`). The removal
  reports a change also for an empty group that held no managed handler
  (`HookMerge.ReportMeansManaged`). A removal that is rolled back without a failure brings
  every file back except those it took for absent, which it deletes; so it is
  all-or-nothing if and only if there are none (`HookReconcile.RemoveAgentHooks`).
- A context can lack rows although it is not full, because the row limit of a query also
  counts neighbours that were seen already. Over all graphs, which show each edge at both
  of its ends, with at most k keys within reach and at most w neighbours per query, every
  context is whole if and only if the limit is at least k + w - 1 (k >= 4), the larger of
  k and k + w - 2 (k = 2 or 3), or k (`ContextThreshold.WholeExactlyFromNeeded`).
  Three edges and a limit of four already lose a row (`ContextThreshold.ThreeEdgesLackARow`).
- No protocol gets stuck: every serving owner can shut down in order and be succeeded
  (`OwnershipRuns.ServingOwnerCanShutDown`, `OwnershipRuns.SuccessorCanServe`), every join
  can return (`JoinedRuns.EveryJoinCanReturn`), an empty orphan can be recovered and built
  after (`WorkerRuns.OrphanIsRecoveredAndBuilt`), and each answer of the artifact store can
  be reached (`ArtifactRuns.WrittenThenReused`, `ArtifactRuns.RetiredThenWritten`).
- A failure that the client marks as retryable means that nothing was submitted, if and only
  if operations never answer with an error that the client itself retries
  (`CoordinatorClient.RetryableFailureIsSafeExactlyWithoutRetriedErrors`).
- A shell reads the generated hook commands as the intended words for all paths
  (`HookCommands.CommandIsRead`, `HookCommands.WindowsCommandIsRead`).
- Equal artifact files compare as different exactly when one read falls short of its
  counterpart (`ArtifactFiles.LooksSameExactly`).

Assumed of the environment: exclusive locks are freed when their process dies;
create-new, no-replace rename and identity-checked unlink are atomic; an "empty" answer
about a containment is truthful; a write reported as successful has happened. A look
whether a file exists may fail, and then reads as absent. In which phases the serving
thread may unwind from a panic is a parameter of the ownership model: an assumption about
the environment, not an observed failure of any statement of the serving loop.

Check the project with `dafny verify dfyconfig.toml`.

## Model

| member | source | states |
|---|---|---|
| `Wildcard.WildcardMatch` | src/source_selection.rs:149-175 | The loop terminates; it accepts only true glob matches, and on a text without `*` exactly the glob matches |
| `Wildcard.ScanIsSound` | src/source_selection.rs:149-175 | From any reachable loop state, acceptance means the rest matches or the last star can still absorb the text |
| `Wildcard.OlderStarIsRedundant` | src/source_selection.rs:162-170 | Whatever an older star could still match, the newer star can match from the current position |
| `Wildcard.ScanIsComplete` | src/source_selection.rs:149-175 | On a star-free text, retrying only the last star finds every match |
| `Wildcard.StarTrapIsMissed` | src/source_selection.rs:154-158 | For every text with a `*` there is a pattern that globs it and that the matcher rejects |
| `Wildcard.MatcherIsGlobExactlyOnStarFreeTexts` | src/source_selection.rs:149-175 | The matcher agrees with the glob relation on all patterns iff the text has no `*` |
| `PathText.NormalFormOfPrefix` | src/source_selection.rs:129-143 | What normalization does to a directory above a normalized path |
| `PathText.NormalizedShape` | src/source_selection.rs:129-143 | The nonempty fixed points of normalization are exactly the texts without leading or trailing slash, leading `./`, backslash and outer white space |
| `PathSpellings.SpaceIsUnicode` | src/source_selection.rs:129-143 | What trimming takes for white space is exactly the UTF-8 of the White_Space characters |
| `PathSpellings.SpellingsNormalizeAlike` | src/source_selection.rs:129-143 | Blanks around a path, `./` and slashes before it, slashes after it and backslashes inside all normalize away |
| `SourceSelection.SelectingPatternKeepsAncestors` | src/source_selection.rs:177-208 | A pattern that selects a file may match below every directory above the file, unless it is empty or a comment |
| `SourceSelection.DirectoryGlobMatches` | src/source_selection.rs:210-228 | The everything-below pattern of a directory selects a path below it iff that path does not go on with two literal stars and more |
| `SourceSelection.RuledOutIsSelected` | src/source_selection.rs:210-228 | A pattern that rules out a directory selects every file below it, outside the double-star case |
| `SourceSelection.IncludedFileKeepsAncestors` | src/source_selection.rs:33-85 | An included file forces the walk into each directory above it, for every exclusion, include, exclude and ignore set |
| `SourceSelection.DriftedCutIsLost` | src/source_selection.rs:129-143 | An ancestor whose normal form drifts away lets some selection prune an included file |
| `SourceSelection.DoubleStarCutIsLost` | src/source_selection.rs:210-228 | So does a `**` name below an ancestor |
| `SourceSelection.UnfaithfulIsLost` | src/source_selection.rs:33-85 | Where a normalized path is not faithful below a directory, some selection includes the path and skips that directory |
| `SourceSelection.PruningIsExactForPath` | src/source_selection.rs:33-85 | For a normalized path: pruning keeps it under every selection iff the path is faithful |
| `SourceSelection.PlainPathIsFaithful` | src/source_selection.rs:33-85 | Paths without `*` below directories that are their own normal forms are faithful |
| `SelectionMeaning.IncludedByDefault` | src/source_selection.rs:33-51 | Without include patterns a normalized path without `*` is included iff no component is excluded, nothing on its path is generated, and no active ignore or exclude pattern globs it |
| `SelectionMeaning.IncludedByRequest` | src/source_selection.rs:33-51 | With include patterns a normalized path without `*`, generated or not, is included iff one of them globs it, no component is excluded, and no ignore or exclude pattern globs it |
| `SelectionMeaning.NoPatternsIncludeAll` | src/source_selection.rs:33-51 | The selection without patterns includes exactly the files that are not generated |
| `SelectionMeaning.GeneratedExactly` | src/source_selection.rs:87-107 | Generated means a component named `.astro`, `.kwiki` or `.scryer`, or a directory whose name begins with `dist-` |
| `ScanMeaning.IncludeLeadsInto` | src/source_selection.rs:183-208 | A full path as include leads into exactly the directories above, at and below it; one with a wildcard into those above its text and those that begin with it |
| `ScanMeaning.EnteredExactly` | src/source_selection.rs:53-85 | A directory is entered iff no component is excluded, no pattern cuts it off as a directory or with two stars, and an include leads into it or, without includes, it is not generated |
| `ScanMeaning.SpellingIsIrrelevant` | src/source_selection.rs:33-85 | Both tests answer alike for every spelling of a normalized path |
| `HiddenComments.HiddenCommentLosesAFile` | src/source_selection.rs:177-181 | Every pattern that becomes a comment after `./` is stripped selects a normalized file its pruning loses |
| `HiddenComments.MatchedCutsAreClean` | src/source_selection.rs:149-175 | A directory name of the pattern that ends in white space or a slash stays one in everything the pattern matches |
| `HiddenComments.ReachedPlainIsLost` | src/source_selection.rs:177-181 | The plain path read off such a pattern is selected and pruned |
| `HiddenComments.IncludePrunesExactlyUnlessHidden` | src/source_selection.rs:109-116 | An include listed alone prunes no selected plain path, iff it is no such comment or its text reaches no plain path |
| `SourceScan.ScanSources` | src/scan.rs:49-73 | The stack walk fails iff it enters a directory with an entry it cannot list; else it reports the pruned files and the ignored ones, and on well-placed trees exactly the included files of the whole tree, in order |
| `ScanMeaning.DefaultScan` | src/scan.rs:49-73 | A scan without patterns of a well-placed tree reports exactly the files that are not generated, in order |
| `SourceWalk.Walk` | src/scan.rs:49-73 | The stack walk with any filter: when it fails, what it reports and ignores, and that pruning is exact iff every included file lies below entered directories only |
| `SourceWalk.VisitedAreFiltered` | src/scan.rs:60-73 | The reported files are the included ones among the files visited |
| `SourceWalk.PathsAreForward` | src/scan.rs:336-342 | No reported path has a backslash, whatever the names on disk |
| `SourceScan.SkippedDirectoryHasNothing` | src/source_selection.rs:53-85 | A file faithful below a directory that is not entered is not included |
| `SourceScan.WellPlacedIsOpen` | src/scan.rs:49-73 | A well-placed tree keeps every included file below entered directories, under every selection without hidden comments |
| `SourceWalk.PruningIsExactWhenOpen` | src/scan.rs:49-73 | For any filter, the pruned walk equals the filtered unpruned walk, in order and multiplicity, iff every included file lies below entered directories only |
| `SourceScan.MisplacedIsLost` | src/scan.rs:49-73 | For a tree with a file that is not faithful below some directory the walk passes, some selection includes a file and skips a directory above it |
| `SourceScan.PruningIsExactOnlyWhenWellPlaced` | src/scan.rs:49-73 | For a tree of normalized paths: the two walks agree under every selection iff every file is faithful below every directory above it |
| `SourceScan.PlainFilesAreWellPlaced` | src/scan.rs:336-342 | A tree of plain paths is well placed, names with backslashes included |
| `Dispatcher.ExecutionDispatcher.TryAcquireMaintenance` | src/coordinator.rs:302-312 | Grants a permit iff the slot is free and not stopping, and marks it active |
| `Dispatcher.ExecutionDispatcher.TrySubmit` | src/coordinator.rs:314-327 | Accepts and queues a job iff the slot is free and not stopping |
| `Dispatcher.ExecutionDispatcher.Take` | src/coordinator.rs:329-346 | One look of the worker: a queued job even while stopping, else the end, else a wait |
| `Dispatcher.ExecutionDispatcher.Active` | src/coordinator.rs:367-369 | The unlocked reader sees the mark that the mutex guards |
| `Dispatcher.ExecutionDispatcher.FinishOne` | src/coordinator.rs:348-356 | Frees the slot and changes nothing else |
| `Dispatcher.ExecutionDispatcher.StopAdmission` | src/coordinator.rs:358-365 | Stops admission and changes nothing else |
| `Dispatcher.StepKeepsInv` | src/coordinator.rs:246-370 | Every step keeps: one token iff active, accepted jobs are the taken ones and the queued one, sleepers have nothing to do |
| `Dispatcher.OneHolder` | src/coordinator.rs:246-370 | In every run at most one of queued job, running job and permit exists, and one exists iff the slot is active |
| `Dispatcher.NothingAfterStop` | src/coordinator.rs:358-365 | After stop no job is accepted and no permit granted, for the rest of the run |
| `Dispatcher.EveryAcceptedJobIsTakenOnce` | src/coordinator.rs:1051-1084 | Jobs are taken once each in acceptance order, and all of them before the worker exits |
| `Dispatcher.NoLostWakeup` | src/coordinator.rs:329-346 | The worker sleeps only when there is nothing to do, and never blocks once stopping |
| `JoinedThread.Handle.Look` | src/coordinator.rs:129-166 | One turn of `join` under the mutex: verdict and next state |
| `JoinedThread.Handle.IsRunning` | src/coordinator.rs:121-127 | True while the handle is being joined, or is installed and unfinished |
| `JoinedThread.StepKeepsInv` | src/coordinator.rs:95-173 | Every step of every caller keeps the invariant tying state, holder and callers |
| `JoinedThread.HandleTakenAtMostOnce` | src/coordinator.rs:129-166 | In every interleaving the handle is taken at most once |
| `JoinedThread.TrueMeansEnded` | src/coordinator.rs:129-166 | A caller that saw a thread gets true only after it ended; false goes only to the thread itself |
| `JoinedThread.TargetNeverBlocks` | src/coordinator.rs:129-166 | The thread's own call never waits or joins and is answered false at once |
| `JoinedThread.NoWaiterLeftAsleep` | src/coordinator.rs:168-173 | While someone sleeps in state Joined a notification is still due, and it wakes every sleeper |
| `JoinedRuns.EveryJoinCanReturn` | src/coordinator.rs:129-173 | From every state of every run, each call under way of another thread can return true once the target has ended |
| `JoinedRuns.LatecomerSleeps` | src/coordinator.rs:129-166 | A call that finds another drainer at work waits for the notification |
| `CoordinatorOwnership.StepKeepsInv` | src/coordinator.rs:886-983 | Every step of any process, crashes included, keeps the lease and joining discipline |
| `CoordinatorOwnership.WorkNeverOverlaps` | src/coordinator.rs:553-630 | In every run without a panic while the worker lives, work happens under the lease only, so two owners never work at once |
| `CoordinatorOwnership.HarmfulPanicOverlaps` | src/coordinator.rs:912-971 | For each phase with a live worker: a panic there frees the lease, and a run follows in which two owners work |
| `CoordinatorOwnership.NoOverlapExactlyWithoutHarmfulPanics` | src/coordinator.rs:912-971 | No run overlaps iff no panic unwinds the serving thread while its worker lives |
| `CoordinatorOwnership.OnlyOwnStateIsRemoved` | src/coordinator.rs:1656-1663 | A state file disappears only at the hands of the owner it names, who still holds the lease |
| `CoordinatorOwnership.OrderlyRelease` | src/coordinator.rs:1137-1145 | Before an orderly release all handlers, workers, refresh and maintenance are joined and no accepted job is left |
| `CoordinatorOwnership.StateFileNamesTheServer` | src/coordinator.rs:886-983 | From publication to the end of its shutdown, the state file names the lease holder |
| `OwnershipRuns.ServingOwnerCanShutDown` | src/coordinator.rs:886-983 | From every run with a serving owner there is a longer one in which it has shut down in order: state file and lease gone, threads joined, every accepted job taken, other owners untouched |
| `OwnershipRuns.SuccessorCanServe` | src/coordinator.rs:553-630 | After that, any new owner can be elected, publish itself and serve |
| `OwnershipRuns.MaintenanceCanHold` | src/coordinator.rs:302-312 | An owner's maintenance can take the slot whenever it is free |
| `CoordinatorClient.HandleConnection` | src/coordinator.rs:1164-1271 | The handler's branches in order; the slot changes only by an accepted submission, and never beside a reply of its own |
| `CoordinatorClient.ImmediateReplyIsPreDispatch` | src/coordinator.rs:1164-1271 | A request is submitted iff it is well formed, authentic, prepared, in time and the slot is free; a reply given by the handler itself means that it was not; which refusals the client retries |
| `CoordinatorClient.SendCommandWithRecovery` | src/coordinator.rs:684-740 | How many turns the retry loop takes, and how the last one ends it: a reply not to be retried is returned; else the expiry, transport, stale-route or unavailable error, each under its condition |
| `CoordinatorClient.RetriedTurnWasNotSubmitted` | src/coordinator.rs:1429-1442 | A retried turn was submitted only if the operation itself answered with a reserved code |
| `CoordinatorClient.OnlyLastTurnSubmits` | src/coordinator.rs:684-740 | Without such answers only the last turn can have been submitted |
| `CoordinatorClient.AtMostOneSubmission` | src/coordinator.rs:684-740 | At most one accepted submission over all owners, retries and lost replies, and exactly one behind a Success |
| `CoordinatorClient.ReservedErrorSubmitsTwice` | src/coordinator.rs:1429-1442 | For each reserved error there is a script with two submissions |
| `CoordinatorClient.AtMostOnceExactlyWithoutReservedErrors` | src/coordinator.rs:684-740 | At-most-once holds for all scripts iff operations return no reserved error |
| `CoordinatorClient.AnswerIsReturned` | src/coordinator.rs:684-740 | Without reserved errors, an accepted operation whose reply came back ends the call with that reply |
| `CoordinatorClient.RetryableFailureIsSafeExactlyWithoutRetriedErrors` | src/coordinator.rs:684-740 | For all scripts: a failure marked retryable means that no owner accepted the operation, iff operations return no error that the client itself retries |
| `WorkerSupervision.EventKeepsInv` | src/materialization_worker.rs:136-298 | While looks miss no descriptor, every step, failure, crash and late delivery keeps the record discipline |
| `WorkerSupervision.StartOnlyOnRecord` | src/materialization_worker.rs:136-298 | START leaves only with its descriptor in the state file and every earlier started containment proven empty |
| `WorkerSupervision.LateStartIsStillAlone` | src/materialization_worker.rs:136-298 | A START delivered late still finds its descriptor on record and all other builds proven empty |
| `WorkerSupervision.BuildsNeverOverlap` | src/materialization_worker.rs:136-298 | Two started builds never run at the same time, while looks miss no descriptor |
| `WorkerSupervision.BlindLookOverlaps` | src/materialization_worker.rs:478-483 | If a failed look can miss one descriptor, a run follows with two builds at once |
| `WorkerSupervision.NoOverlapExactlyWhenSighted` | src/materialization_worker.rs:478-483 | No run overlaps iff a failed look never reads as absent while a descriptor is on file |
| `WorkerSupervision.StartedBuildStaysOnRecord` | src/materialization_worker.rs:665-673 | A started build stays in the state file until it is proven empty |
| `WorkerSupervision.UnknownExitKeepsState` | src/materialization_worker.rs:136-298 | Every containment-unknown exit or crash after START keeps the state file |
| `WorkerSupervision.ProvenStaysQuiet` | src/materialization_worker.rs:478-531 | A containment proven empty never runs again |
| `WorkerRuns.RecoversOrphan` | src/materialization_worker.rs:482-531 | From every run in which the lease is free and the descriptor on file names an empty containment, a fresh supervisor can recover it: file gone, proof kept, way clear |
| `WorkerRuns.CompletesBuild` | src/materialization_worker.rs:136-298 | A supervisor whose way is clear can start a build, see it end, remove its record and free the lease; the whole end state |
| `WorkerRuns.OrphanIsRecoveredAndBuilt` | src/materialization_worker.rs:136-298 | Both in one run: an empty orphan blocks nobody |
| `WorkerRuns.TearsDown` | src/materialization_worker.rs:136-298 | From every phase after the record was written, a teardown that proves the containment empty can remove the record and free the lease |
| `WorkerRuns.PreparationFails` | src/materialization_worker.rs:199-211 | A child that could not be prepared makes the supervisor refuse, or report an unknown containment if it could not clean up |
| `WorkerRuns.ExitTellsProof` | src/materialization_worker.rs:136-298 | A supervisor that leaves a build at hand, other than by a crash, reports success or refusal only with proof that its containment is empty, and an unknown containment keeps the file |
| `WorkerRuns.EarlyExitLeavesState` | src/materialization_worker.rs:136-298 | An exit before a build is at hand changes no state file and sends no START |
| `WorkerRuns.OnlyProvenRecordIsRemoved` | src/materialization_worker.rs:665-673 | A state file disappears only at the hands of a supervisor with proof that the build it names is empty |
| `ArtifactPublication.StepKeepsHeld` | src/artifact_store.rs:149-430 | No step of any producer changes the directory, file or bytes a key holds |
| `ArtifactPublication.StepKeepsInv` | src/artifact_store.rs:149-430 | Every step keeps each call's ownership, content and outcome invariants |
| `ArtifactPublication.PublishedPayloadIsForever` | src/artifact_store.rs:149-430 | A published payload keeps identity and bytes through every later interleaving |
| `ArtifactPublication.WrittenIsOwnPayload` | src/artifact_store.rs:149-430 | Written: the canonical payload is the file this call created, with the candidate's bytes |
| `ArtifactPublication.ReusedIsEqualPayload` | src/artifact_store.rs:149-430 | Reused: the canonical payload has the candidate's bytes |
| `ArtifactPublication.OnlyCreatorsUnlink` | src/artifact_store.rs:899-913 | A file loses its last name only to the unfinished call that created it, and never while a key holds it |
| `ArtifactPublication.FailedCallAnswersError` | src/artifact_store.rs:149-430 | A call one of whose writes or checks failed answers Error, at every later point of every run |
| `ArtifactRuns.FreeKeyIsWritten` | src/artifact_store.rs:149-430 | From every run, a call that finds its key free can answer Written, with its payload under the key and its temporary name gone |
| `ArtifactRuns.EqualPayloadIsReused` | src/artifact_store.rs:149-430 | From every run, a call that finds its bytes under its key can answer Reused and leave the store's names as they were |
| `ArtifactRuns.RetiredKeyIsWritten` | src/artifact_store.rs:149-430 | From every run, a call that finds its key retired can publish its payload there, answer Written and leave no other name |
| `ArtifactRuns.AttestsThenConfirms` | src/artifact_store.rs:149-430 | A call that has compared its bytes can leave a receipt beside the existing payload and go on to Reused |
| `ArtifactRuns.WrittenThenReused` | src/artifact_store.rs:149-430 | A run from the empty store in which one call answers Written and the next Reused |
| `ArtifactRuns.RetiredThenWritten` | src/artifact_store.rs:149-430 | A run in which a call finds its key retired and republishes it |
| `ArtifactFiles.SameFileBytes` | src/artifact_store.rs:914-942 | Different is said iff the lengths differ or the portions read do; Same and Changed only of equal bytes; exact when the reads deliver equal counts |
| `ArtifactFiles.LooksSameExactly` | src/artifact_store.rs:914-942 | Files of one length look the same iff they are equal and are read in the same portions |
| `ArtifactFiles.ShortReadLooksDifferent` | src/artifact_store.rs:926-935 | Every file of two bytes or more can look different from itself |
| `ArtifactFiles.VerifyCreatedShape` | src/artifact_store.rs:807-844 | Succeeds iff the directory holds exactly the created leaves under their identities |
| `ArtifactFiles.StoredPartitionLoads` | src/artifact_store.rs:432-459 | After Written or Reused, loading the key from the store gives back the stored partition, then and at every later point of the run |
| `ArtifactFiles.LoadsExactlyIntact` | src/artifact_store.rs:535-580 | A file loads as a partition iff it did not change size and is that partition's intact envelope: format, key, digest and rows in order, path, hash and language as expected |
| `ArtifactFiles.StoreLoadsExactlyIntact` | src/artifact_store.rs:432-459 | The same for the store: iff the key is well formed and such bytes are published under it |
| `Hex.HexLower` | src/hash.rs:33-39 | Two lowercase digits per byte, high digit first |
| `Hex.DecodeKey` | src/artifact_store.rs:799-806 | The 32 bytes whose encoding is the key |
| `Hex.EncodedIsInjective` | src/hash.rs:33-39 | Different bytes have different texts |
| `Hex.KeyRoundTrip` | src/artifact_store.rs:518-533 | Decoding the encoding of 32 bytes gives them back |
| `AgentHooks.CleanKeepsUnmanaged` | src/agent_hooks.rs:240-262 | The handlers after cleaning are the unmanaged handlers outside managed wrappers, in order and in the same surroundings |
| `AgentHooks.CleanFixesTidy` | src/agent_hooks.rs:240-262 | Cleaning leaves a list alone iff it has no managed value and no empty wrapper where cleaning looks; it is idempotent |
| `AgentHooks.PassesClean` | src/agent_hooks.rs:297-306 | The retain, rewrite and retain passes amount to one recursive cleaning |
| `AgentHooks.RemoveManagedFromEvent` | src/agent_hooks.rs:240-262 | The in-place passes compute the cleaning of an entry; the flag is true iff a managed handler or an empty group was inside |
| `AgentHooks.ManagedExactly` | src/agent_hooks.rs:217-238 | A value is managed iff the text of one of three fields holds both marks, or its arguments hold them side by side |
| `HookMerge.HookIsManaged` | src/agent_hooks.rs:161-197 | The generated handler of every client, configuration, server and platform is recognised as managed |
| `HookMerge.GeneratedIsOneHandler` | src/agent_hooks.rs:703-720 | The generated entry is one managed handler, counted once and cleaned away whole |
| `HookCommands.CommandIsRead` | src/agent_hooks.rs:125-145 | A POSIX shell reads the generated command as the server and exactly the hook's arguments, whatever the two paths hold |
| `HookCommands.WindowsCommandIsRead` | src/agent_hooks.rs:133-160 | So does PowerShell with the second command |
| `HookCommands.ToolEventsMatchAll` | src/agent_hooks.rs:286-321 | Of a client's events exactly those around a tool use get a matcher, and it matches every tool |
| `HookMerge.CleanEntries` | src/agent_hooks.rs:569-586 | The passes over one event's entries, and what their flag means |
| `HookMerge.MergeEvents` | src/agent_hooks.rs:286-321 | The loop over supported events gives the merged hooks, or stops at the first event that is no array |
| `HookMerge.MergeHooks` | src/agent_hooks.rs:264-324 | Succeeds iff the root is an object whose supported events are arrays or absent; the result is the merged root; which error otherwise |
| `HookMerge.MergeOverwrites` | src/agent_hooks.rs:264-324 | Merging after an earlier merge equals merging into the original, so merging is idempotent and the last setup wins |
| `HookMerge.MergedEvents` | src/agent_hooks.rs:286-324 | Each supported event has exactly one managed handler, after the original unmanaged ones in order; other events are untouched |
| `HookMerge.OtherFieldsAreKept` | src/agent_hooks.rs:273-281 | Every other field of the root is kept |
| `HookMerge.CopilotHasVersion` | src/agent_hooks.rs:273-281 | A Copilot file has a version afterwards: its own, or 1 |
| `HookMerge.TidyCountsZero` | src/agent_hooks.rs:703-720 | A cleaned event counts no managed handler |
| `HookMerge.RemoveHooks` | src/agent_hooks.rs:569-586 | Every event array is cleaned and nothing else changes; the meaning of the reported flag |
| `HookMerge.ReportMeansManaged` | src/agent_hooks.rs:569-586 | A removal reports a change iff there was a managed handler at an inspected level or an empty group inside an entry |
| `HookMerge.CleanedHasNone` | src/agent_hooks.rs:569-586 | After a removal no inspected level holds a managed handler |
| `HookMerge.InstallThenRemove` | src/agent_hooks.rs:264-324 | Removal after installation restores every field, up to empty arrays and added keys, iff `hooks` was absent or an object and its events were tidy; it always reports a change |
| `HookMerge.NonObjectHooksAreLost` | src/agent_hooks.rs:279-281 | A `hooks` value that is not an object is replaced and does not come back |
| `HookOwnership.UpdateInstalled` | src/agent_hooks.rs:390-408 | Client by client, then sort and dedup: the one increasing list of the old clients with the given ones added or taken out |
| `HookOwnership.InstalledAfterIs` | src/agent_hooks.rs:390-408 | Which names that list holds, in both directions |
| `HookOwnership.TextsAreStrings` | src/agent_hooks.rs:390-396 | The clients read from a record are the strings of its list, and nothing else in it |
| `HookOwnership.OwnedRecords` | src/agent_hooks.rs:373-411 | The setup file records that list and keeps every field but the record |
| `HookOwnership.OwnedTwice` | src/agent_hooks.rs:373-411 | Recording the same clients again changes nothing |
| `HookReconcile.Disk.Restore` | src/agent_hooks.rs:359-371 | A successful restore that overlooks nothing gives the snapshot, any other the snapshot or what was there; no other file changes |
| `HookReconcile.UpdateOwnership` | src/agent_hooks.rs:373-411 | Success writes the updated record and nothing else; failure touches no other file; on a disk without failures it succeeds iff the setup file takes the record |
| `HookReconcile.RollBack` | src/agent_hooks.rs:498-514 | Every path that was read rightly, and whose restore neither failed nor overlooked it, equals its snapshot, files that did not exist included; each reported failure is a fault of the disk on that path; if nothing failed, the files are the earlier ones without those misread as absent |
| `HookReconcile.Commit` | src/agent_hooks.rs:485-514 | All planned files and the ownership record are written, or all is rolled back: then, but for failed restores and overlooked files, the files are the earlier ones iff none was misread as absent. On a disk without failures it is done iff the setup file takes the record |
| `HookReconcile.Reconcile` | src/agent_hooks.rs:445-514 | All-or-nothing at every position of a failure; on success the files are the planned merges; a dry run changes nothing. On a disk without failures it is refused iff the root differs or some file cannot be merged into, and rolled back iff the setup file takes no record |
| `HookReconcile.RemoveAgentHooks` | src/agent_hooks.rs:542-621 | A failure in planning touches no file; a rollback without failed restores is all-or-nothing iff no file was misread as absent. On a disk without failures it is refused iff the root differs or some file does not load, and rolled back iff the setup file takes no record |
| `HookReconcile.InstalledFile` | src/agent_hooks.rs:445-514 | After success each client's file reads as the merge of its old content |
| `HookReconcile.InstallationIsRecorded` | src/agent_hooks.rs:373-411 | After success the ownership record names exactly the intended clients |
| `HookReconcile.SecondInstallIsUnchanged` | src/agent_hooks.rs:467-483 | The same installation afterwards plans no change |
| `HookReconcile.RemovalUndoesInstall` | src/agent_hooks.rs:542-590 | A removal planned after an installation restores the original file iff its `hooks` was absent or an object and its events were tidy |
| `Sha1.PadMessage` | src/hash.rs:48-54 | The push loop builds the padding of section 5.1.1 of FIPS 180-4 for every input below 2^61 bytes |
| `Sha1.PaddingIsLeast` | src/hash.rs:51-53 | The zero octets are the fewest that let the length end a block |
| `Sha1.PaddingIsInjective` | src/hash.rs:48-54 | Different messages have different paddings |
| `Sha1.ChooseByOr` | src/hash.rs:79 | The OR form of the choice function equals the XOR form of section 4.1.1 |
| `Sha1.MajorityByOr` | src/hash.rs:81 | The OR form of the majority function equals the XOR form of section 4.1.1 |
| `Sha1.FillSchedule` | src/hash.rs:57-71 | The array filled in place is the message schedule of section 6.1.2 |
| `Sha1.RunRound` | src/hash.rs:78-94 | One iteration of the round loop is one round of section 6.1.2 |
| `Sha1.CompressChunk` | src/hash.rs:72-100 | The 80 iterations and the final additions are the compression of a block |
| `Sha1.Sum` | src/hash.rs:41-108 | The result array is the SHA-1 digest of FIPS 180-4 |
| `Sha1.PartitionId` | src/hash.rs:24-31 | Twenty hexadecimal digits: the first ten digest octets |
| `Sha1.SamePartitionExactly` | src/hash.rs:24-31 | Two paths share a partition id iff their digests agree on ten octets |
| `Sha1.RoundConstantsAreRoots` | src/hash.rs:78-83 | The round constants are the integer parts of 2^30 times the square roots of 2, 3, 5 and 10 |
| `Sha1.InitialCounts` | src/hash.rs:42-46 | The initial words spell the hexadecimal digits up, down and interleaved, octet by octet |
| `Sha1Words.LengthIsSpelled` | src/hash.rs:48-54 | A padded message is the message, the octet 0x80, zero octets and eight octets that spell its length in bits |
| `Sha1Words.WordIsSpelled` | src/hash.rs:57-63 | A word of a block is the number that its four octets spell, most significant first |
| `Sha1Words.DigestIsSpelled` | src/hash.rs:102-107 | The digest spells the five words, most significant octets first |
| `ContextOrder.RankOrder` | src/api/graph_read.rs:317-330 | The comparator is a total preorder; what rows of one rank have in common |
| `ContextOrder.OrderingIsTheStableSort` | src/api/graph_read.rs:312-334 | The ordering is a permutation, and outside the semantic layer the one ordered and stable arrangement of the rows |
| `ContextOrder.ChildrenThenOthers` | src/api/graph_read.rs:312-334 | Outside the semantic layer the syntax children come first, by index and id, and the other rows follow as they were found |
| `ContextExpansion.AbsorbHits` | src/api/graph_read.rs:288-305 | The loop over one answer: each unseen usable neighbour becomes a row and, while depth remains, a queued node; it stops with the context full |
| `ContextExpansion.ExpandNode` | src/api/graph_read.rs:273-309 | The loops over relations and directions of a node; they stop early only with the context full |
| `ContextExpansion.ExpandContext` | src/api/graph_read.rs:265-311 | Terminates on every graph within 1 + context_limit expansions, with exactly the rows of the recursive expansion |
| `GraphContext.ContextIsSound` | src/api/graph_read.rs:262-311 | On every graph the rows have distinct keys, fit the limit and are reached within the depth limit in nondecreasing depth; a result that leaves room for the widest query lists every neighbour within the depth limit, at its shortest depth |
| `GraphContext.RowsAreNamed` | src/api/graph_read.rs:288-296 | Every row has an id and a type, a relation that was asked for and one of the two directions |
| `ContextRoom.RoomForAll` | src/api/graph_read.rs:275-287 | For every query function: a limit with room for all keys but one and the widest query makes the context whole |
| `ContextGraph.EdgeIsMirrored` | src/api/graph_read.rs:641-744 | In a stored graph, a neighbour of a node has that node as its neighbour in the other direction, by the same relation |
| `ContextGraph.SharedNeighbourCosts` | src/api/graph_read.rs:273-309 | Two nodes within reach that share a neighbour, one of them with a further one, bring at least four keys within reach |
| `ContextFewKeys.RoomForFewKeys` | src/api/graph_read.rs:262-311 | A graph with at most three keys within reach has a whole context already from the smaller limit |
| `ContextFan.FanLosesLast` | src/api/graph_read.rs:275-300 | For every size of two keys or more there is a graph that, one below the limit for few keys, loses its last row in a result that is not full |
| `ContextLoop.LoopLosesOne` | src/api/graph_read.rs:275-300 | For every size of four keys or more there is a graph that, at any limit below keys + width - 1, lacks a row within reach |
| `ContextThreshold.LessLosesRows` | src/api/graph_read.rs:275-300 | Below the least limit, for every number of keys and width, some graph of that size has a context that lacks a row |
| `ContextThreshold.WholeExactlyFromNeeded` | src/api/graph_read.rs:262-311 | Over all graphs with at most so many keys within reach and queries no wider: every context is whole iff the limit is at least the stated number |
| `ContextThreshold.ThreeEdgesLackARow` | src/api/graph_read.rs:275-300 | Root to root, root to hub, hub to hub; two steps and a limit of four: three rows, and the hub's incoming edge is missing |
| `ContextExpansion.ExecuteGraphContext` | src/api/graph_read.rs:227-311 | The whole request: nothing for a zero limit, budget or depth, else the rows of the expansion in their final order, a permutation of them |
| `GraphContext.KeyIsInjective` | src/api/graph_read.rs:294-295 | The text key tells direction, relation, type and id apart when only ids may hold a colon |
| `GraphContext.WalkSettles` | src/api/graph_read.rs:262-311 | Every node at the end of a short walk was expanded at a depth no greater than the walk |
| `ManifestDiff.ComputeDiff` | src/scan.rs:344-405 | The four increasing lists and which path belongs to which; the force flag |
| `ManifestDiff.Classify` | src/scan.rs:379-390 | The loop's three lists, by presence and by content hash and language |
| `ManifestDiff.SupportedIsPartitioned` | src/scan.rs:344-405 | Added, modified and unchanged are disjoint and together the supported paths, with the right total; deleted ones are the rest of the manifest |
| `ManifestDiff.RebuildPathsAre` | src/protocol.rs:309-316 | The rebuild list is increasing without repeats: the added and the modified paths |
| `ManifestDiff.IncrementalIsFull` | src/scan.rs:344-405 | Keeping unchanged entries and rebuilding the list gives the map of a full rebuild |
| `ManifestDiff.SkippedExactlyWhenEqual` | src/api/materialization.rs:520-525 | The no-op test holds iff no rebuild is forced and the manifest already records the full build |
| `ManifestDiff.PlanRefresh` | src/scan.rs:407-417 | With the full-rebuild rule: the refresh is a no-op iff there is a manifest of the same schema version, ontology, parser version and digest, no full build is asked for, every entry has an artifact key and the contents are equal |
| `StreamReaders.DrainProgress` | src/materialization_worker.rs:693-733 | For every chunking: the counts of whole-stream line splitting, up to the point where the stream breaks and with the lines for which memory was refused as oversized; the buffer never exceeds the bound |
| `StreamReaders.ReadFrame` | src/coordinator.rs:1590-1650 | For every chunking: the first frame of the stream, or the same error; a read error or a passed deadline aborts, and never yields another frame |
| `StreamReaders.WriteFrame` | src/coordinator.rs:1533-1576 | Sends payload and newline whole through any short writes, or breaks off at a failed or late write with a proper part sent; a payload over the limit is refused and nothing sent |
| `StreamReaders.FrameRoundTrip` | src/coordinator.rs:1533-1576 | Whatever fails on either side, the reader never gets another frame than the payload; if nothing fails it recovers every newline-free payload within the limit and rejects every longer one |
| `HttpHead.ParseHeadLines` | src/mcp_client.rs:225-238 | The loop over header lines computes the length and coding in force |
| `HttpHead.LastFieldWins` | src/mcp_client.rs:225-238 | The last Content-Length and the last Transfer-Encoding decide, also when that line has no number |
| `HttpHead.NoFieldNoInfo` | src/mcp_client.rs:225-238 | Without such lines there is no length and no chunked coding |
| `HttpHead.LengthRoundTrip` | src/mcp_client.rs:230 | Every 64-bit length is read back from its decimal text |
| `HttpLines.LengthIsDecimal` | src/mcp_client.rs:230 | A text is read as a length iff it is the decimal text of a 64-bit number, with noughts and one plus sign allowed in front |
| `HttpLines.FieldIsSpelled` | src/mcp_client.rs:227-231 | A line is a field iff what stands before its first colon, trimmed, spells the name in upper or lower case |
| `HttpLines.LengthLineSets` | src/mcp_client.rs:227-230 | Every spelling of a Content-Length line, with any blanks, sets the length |
| `HttpLines.ChunkedLineSets` | src/mcp_client.rs:231-235 | Every Transfer-Encoding line with `chunked` between its commas, in any spelling, sets the coding |
| `HttpReader.ReadHttpResponse` | src/mcp_client.rs:206-269 | The answer depends on the bytes alone, however reads split them, unless the deadline passes |
| `HttpReader.ResponseIsBoundedPrefix` | src/mcp_client.rs:206-269 | A response is a prefix of the stream and within the bound |
| `HttpReader.ContentLengthDecides` | src/mcp_client.rs:206-269 | With header lines that leave a Content-Length and no chunked coding in force: the head and exactly that many body bytes, as in section 6.3 of RFC 9112 |
| `HttpReader.WithoutLengthAllIsRead` | src/mcp_client.rs:206-269 | Without a length, or with the chunked coding, all that was sent is the response, unless it exceeds the bound |
| `HttpReader.LongLengthIsRefused` | src/mcp_client.rs:240-250 | An announced length over the bound is refused whatever was sent |
| `HttpReader.NoHeadIsInvalid` | src/mcp_client.rs:206-222 | A stream within the bound that never ends its head is no response |

## Left out

- SelectionMeaning.IncludedByDefault: stated by globs, and so for paths without `*`; which patterns the matcher misses on others is the matcher's own result.
- SelectionMeaning.IncludedByRequest: as for IncludedByDefault.
- ArtifactFiles.StoreLoadsExactlyIntact: the use lease that a load takes is not modelled; without one nothing is loaded.
- OwnershipRuns.ServingOwnerCanShutDown: says that a run to the end exists, not that every schedule gets there.
- Sockets, clocks and sleeps: deadlines, failures and lost replies are adversarial flags or steps, so every result holds for any timing, and no bound on elapsed time is claimed.
- The `storage` and `process_lifecycle` modules: only the guarantees listed above are used, at their call sites.
- A retired key whose directory is republished is modelled; the optional origin receipts are one extra leaf without content.
- JSON text, SHA-256 and row validation: parameters; reloading what was stored is a stated condition, since a confidence that is not a number does not reload.
- HookReconcile.Reconcile: reading the setup file and comparing the repository roots is one flag, and no other process writes the files meanwhile.
- HookReconcile.RemoveAgentHooks: as for Reconcile.
- HiddenComments.IncludePrunesExactlyUnlessHidden: stated for a pattern listed alone, since another include may keep the directory open, and over plain paths, on which nothing but the comment can lose a file.
- ContextThreshold.WholeExactlyFromNeeded: a stored graph has named nodes, kinds and relations without a colon, a schema that lets every relation join every kind, and queries that succeed and answer in one fixed order of which a limit gives a prefix; columns that carry more than a neighbour's identity are empty.
- ContextExpansion.ExecuteGraphContext: opening the database and looking up the context profile, with their errors, are not modelled; relations and depth limit are given.
- SourceScan.ScanSources: names are taken to be valid UTF-8; hashing and the language of a file are not modelled.
- WorkerSupervision.BuildsNeverOverlap: runs start without legacy version-1 state, and the in-process fallback is not modelled.
- CoordinatorClient.SendCommandWithRecovery: routes, endpoints and connection set-up are the adversary's choice of exchange.
- Database access, text search, ranking, schema text and language profiles: foreign libraries, floating point or data.
- Client configuration paths, executable discovery, command line and operation registry: plumbing.
