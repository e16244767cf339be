# A verified model of mount-wrapper

mount-wrapper drives archives through a lifecycle: discovered, converting, indexing, mounting, mounted,
running hooks, unmounting, absent, and two failure statuses. This project models that lifecycle and the
small algorithms around it in Dafny, and proves what they promise. `dafny verify dfyconfig.toml` checks
all of it.

## How it is put together

* **The store** (`Statuses`, `ArchiveStore`): the table of legal moves, guarded transitions, and the
  listing, as a class over a map of rows.
* **The engine** (`Lifecycle`, `Engines`): `Lifecycle` says as functions of the whole state what each step
  does. `Engines.Engine` is the imperative engine with its registry, job table, index files and processes;
  every method is proved to do exactly the step of the same name.
* **What steps guarantee** (`Guarantees`, `Steps`, `Corners`): each step touches one archive, keeps an
  invariant, books failures, and respects the index-slot and convert-job limits. `Corners` holds the exact
  conditions of the less obvious behaviour.
* **What steps come to** (`Starts`, `Children`): when a start spawns a process and for what, and what polling
  a child does, on the rows, files, mounts and processes alone.
* **Advisories** (`Advisories`): what a child skipped reaches the mounted row or the failure, readable.
* **Repair** (`Reconciling`, `RepairTheorems`, `Repairs`, `Reconcilers`): decisions, their effects, the fixed
  point of the reconcile pass, the outcome of a repair for each status, and the boot pass.
* **Whole runs** (`Runs`, `Retries`, `Tidiness`, `Services`, `NewWork`, `Sorting`, `Orphans`): an event for everything
  that can happen, the bounds over all runs, how often and why a failed mount is started again, what keeps
  paths and pids of different archives apart over runs, restarts and boots, the service cycle as such a run,
  and the boot-time killing of stray processes.
* **Hooks** (`HookCycles`, `HookRunner`, `HookHistory`, `TempFails`): one pass, the runner, any number of
  cycles, and hooks that always ask for a retry.
* **Texts and names** (`Options`, `Sequences`, `Decimal`, `Strings`, `PathLex`, `MountNames`, `Basenames`,
  `NestedSkips`, `RatarmountArgv`, `Durations`): printers with their parsers, and the allocation of mount names.
* **Observers and cleaners** (`StatusStream`, `IndexAnalysis`, `StableGate`, `Quarantine`).

Process ids are fresh numbers that are not reused. Clocks, the file system, the process table and the
outcomes of other programs are parameters: every theorem holds for all of their answers. The bounds that
configuration loading enforces (`internal/config/load.go:425-437`) are the hypothesis `ValidConfig`.

## Where the code does something else than one might expect

Each of these is a lemma about all inputs of its kind, with the exact condition.

* Printing a skip summary and extracting it again fails when the list is cut off right after a sample that
  ends in "skipped" (`NestedSkips.ExtractFormat`, `NestedSkips.CutOffAfterSkipped`).
* A hook that always asks for a retry runs at most `hook_max_retries + 1` times, whatever the other hooks
  do, if and only if `hook_rerun_on_failure` is off (`TempFails.BoundedIffNotRerun`). With it off, it runs
  exactly that often only if no other hook ends the cycles early and no stop comes before it
  (`TempFails.TempFailRuns`); with it on, it runs in every cycle before the first that stops before it
  (`TempFails.RerunRuns`, `TempFails.RerunOfOne`).
* A success row is overwritten by skipped when stopping is on and an earlier hook fails hard
  (`HookHistory.SuccessBecomesSkipped`). A hook skipped by a stop is never executed again, and the archive
  can still end in hooks_success (`HookHistory.StoppedNeverRuns`, `HookHistory.SuccessWithSkippedIff`,
  `HookHistory.SuccessUnexecuted`).
* A mount_failed row that may not be retried, with all attempts used up, is still started when a conversion
  of it finishes, and by nothing else that happens without an operator (`Retries.GivenUpStartsIff`,
  `Retries.StartedAtTheLimit`). When that start comes to nothing, for a full slot say, the row is left
  discovered for good (`Retries.PollStrandsIff`, `Retries.StrandedForGood`).
* The clean-up of stray processes spares the tracked children of active archives, but it only runs right
  after the boot pass, when no archive is active: it kills every listed process under the mount root
  (`Orphans.KilledIff`, `Orphans.TrackedChildSurvives`, `Orphans.BootKillsAll`).
* A discovered row whose conversion product already lies at another path is never started
  (`Corners.AdoptionStalls`).
* A conversion error of a never-mounted row that is already in mount_failed is lost
  (`Corners.FailedJobBooked`).
* A mount start that fails right after its index was built costs two attempts
  (`Corners.FailedHandoverCostsTwo`, with the three ways in which it fails).
* Unmounting forgets the stored pid before it looks for a process, so it signals the live child and nothing
  else: what an earlier daemon started is never signalled (`Corners.UnmountSignalsIff` for any state,
  `Tidiness.UnmountAfterRun` for the states that runs lead to).
* The fixed point of reconcile needs the paths of different archives to differ (`NoSharing`), which holds
  after every run (`Tidiness.TidyNoSharing`, `Tidiness.FixedPointAfterRun`). An index file that cannot be
  deleted is reported again in every pass.
* The tick takes up rows in discovered, indexing, mounting and mount_failed only; a row in index_failed
  waits for a reset (`Services.NewWorkLeavesAlone`).

## Model

| member | source | states |
|---|---|---|
| `ArchiveStore.Store.Transition` | internal/state/store.go:459-586 | accepts exactly when the row exists, its status is expected and the table has the edge; then the row is the old one with the new status, the automatic columns and the given fields; a rejected call changes nothing |
| `ArchiveStore.Stamps` | internal/state/store.go:524-551 | the automatic columns: when work began, and the first mount, which is never replaced |
| `ArchiveStore.Store.SetAbsent` | internal/state/store.go:680-712 | goes by way of unmounting, and leaves the row absent without a pid |
| `ArchiveStore.MarkAbsentSucceeds` | internal/state/store.go:680-712 | marking absent is never rejected by the status table, from any status, and changes only status, pid and error |
| `ArchiveStore.Store.InsertDiscovered` | internal/state/store.go:389-432 | accepts exactly when neither the id nor the archive path is stored yet; then a new row is discovered, retryable, without attempts, with the optional paths that were given, at the end of the listing; a refused call changes nothing |
| `ArchiveStore.InsertIff` | internal/state/migrations/001_initial.sql:8-12 | a row is taken exactly when its id is new and archive paths stay unique |
| `ArchiveStore.NewRowIs` | internal/state/store.go:389-432 | a new row has no history and may be tried |
| `ArchiveStore.Store.ListArchives` | internal/state/store.go:296-327 | lists exactly the rows that pass the filter (all, one status, some statuses), in table order, each once |
| `MountNames.SanitizeMountName` | internal/paths/sanitize.go:23-83 | terminates for every finite set of taken names and returns the allocated name, which is not taken |
| `MountNames.CountUp` | internal/paths/sanitize.go:63-83 | the numbered search ends by a pigeonhole measure on the taken set and finds the first free candidate |
| `MountNames.NumberedDistinct` | internal/paths/sanitize.go:63-101 | numbered candidates are pairwise distinct in spite of truncating the base |
| `MountNames.FirstNumberedIsFirst` | internal/paths/sanitize.go:63-83 | the candidate found is free, and every earlier one is taken |
| `MountNames.AllocateIsFree` | internal/paths/sanitize.go:23-83 | the allocated name is not taken |
| `MountNames.AllocateIsMountName` | internal/paths/sanitize.go:23-101 | the allocated name is a legal directory entry made of safe characters, for ids made of safe characters |
| `MountNames.AllocateFits` | internal/paths/sanitize.go:30-36 | the allocated name has at most 120 characters for ids of UUID length and fewer taken names than there are hundred-digit numbers |
| `MountNames.CandidateShape` | internal/paths/sanitize.go:86-101 | a candidate is a non-empty base, a separator and the suffix: the fallback name is never reached |
| `Basenames.BaseNameKeepsCore` | internal/paths/sanitize.go:23-61 | a name keeps, in order, every character of the basename that may stand anywhere, as far as it is long enough; only a basename without any becomes "archive" |
| `Basenames.TidyNameStays` | internal/paths/sanitize.go:23-61 | a basename that is tidy already is only cut to length |
| `Basenames.SafeCharacters` | internal/paths/sanitize.go:9-12 | the characters of a mount name are the letters and digits of ASCII and five more |
| `PathLex.CleanIdempotent` | internal/mounter/orphans_unix.go:175-185 | cleaning a path twice is cleaning it once |
| `PathLex.BaseOfJoin` | internal/mounter/request.go:53-54 | the last element of a joined mount path is the mount name, and the joined path is clean |
| `NestedSkips.MatchSummaryIff` | internal/mounter/nested.go:116-135 | the summary expression matches exactly the texts of the grammar mark, digits, unit, optional plural, optional detail |
| `NestedSkips.SkipOnlyIff` | internal/mounter/nested.go:141-147 | an error is a pure advisory exactly when, trimmed, the summary expression matches it |
| `NestedSkips.ExtractByIff` | internal/mounter/nested.go:116-135 | a given segment is extracted from exactly the texts that end in it, white space aside |
| `NestedSkips.FormatIs` | internal/mounter/nested.go:47-70 | a summary as it reads: the number, the unit in its number, and the samples |
| `NestedSkips.EnrichIs` | internal/mounter/nested.go:74-86 | a reason is only ever added to: the summary follows it, or stands for a blank one |
| `NestedSkips.ExtractFormat` | internal/mounter/nested.go:47-70 | extracting a printed summary gives back the whole text and the exact number of paths if and only if the printed samples are readable: free of the mark and of newlines, with a visible end, and when the list is cut off with a last sample that does not end in "skipped" |
| `NestedSkips.CutOffUnreadable` | internal/mounter/nested.go:47-70 | no list that is cut off after a sample ending in "skipped" comes back, at any number of samples |
| `NestedSkips.CutOffAfterSkipped` | internal/mounter/nested.go:47-70 | at the number of samples used in production: trimmed, mark-free paths for which extraction does not give the summary back |
| `NestedSkips.PreserveKeepsSegment` | internal/mounter/nested.go:92-111 | a new reason keeps the extracted summary and count if and only if, trimmed, it does not hold the segment or holds it at its end |
| `NestedSkips.PreserveKeepsSegmentOfPlainReason` | internal/mounter/nested.go:92-111 | a reason without the mark always keeps the summary and count |
| `NestedSkips.PreserveIdempotent` | internal/mounter/nested.go:92-111 | preserving twice is preserving once |
| `HookCycles.AggregateStatus` | internal/hooks/classify.go:87-114 | the four-flag loop computes the archive status that a list of results stands for |
| `HookCycles.StopKeepsAggregate` | internal/hooks/runner.go:147-235 | the archive-level status is the same whether or not hard failures stop the pass |
| `HookCycles.StopOrSame` | internal/hooks/runner.go:147-196 | a stopping pass either equals the free one or both hold a hard failure |
| `HookCycles.UnstoppedResults` | internal/hooks/runner.go:147-196 | without a stop each result is decided by its own row and outcome alone |
| `HookCycles.UnstoppedRows` | internal/hooks/runner.go:286-402 | without a stop each hook row ends as its own outcome says, and other rows stay |
| `HookCycles.UnstoppedRan` | internal/hooks/runner.go:147-196 | without a stop exactly the unsettled hooks are executed, once each |
| `HookCycles.SettledIsNotRun` | internal/hooks/runner.go:147-196 | a hook whose row is success or skipped is not executed, stop or no stop |
| `HookCycles.PassAt` | internal/hooks/runner.go:147-196 | a hook at any place of any list: skipped, without an execution, if and only if stopping is on and an earlier executed hook fails hard; otherwise it ends as its own row and outcome say, and runs at most once |
| `HookCycles.ClassifiedAs` | internal/hooks/classify.go:14-48 | an exit is a success for code zero alone, a retry for 75 or a timeout while attempts are left, and a hard failure otherwise, each with the reason that fits |
| `HookCycles.ExecutedAs` | internal/hooks/runner.go:286-402 | the row and the result of an executed hook: one attempt more, its exit as it was taken, and the last exit code seen |
| `HookCycles.SettledAs` | internal/hooks/runner.go:147-196 | a settled hook answers by its row |
| `HookCycles.SkippedAs` | internal/hooks/runner.go:147-196 | a hook that is not reached is skipped for the failure before it, its attempts as they were |
| `HookRunner.Runner.RunForArchive` | internal/hooks/runner.go:66-145 | a cycle leaves the state and the result that its specification says, for sequential execution; for parallel execution the same up to the order of executions |
| `HookRunner.Runner.EnterHooksRunning` | internal/hooks/runner.go:259-284 | the archive enters hooks_running when the table allows it, with missing hook rows seeded |
| `HookRunner.Runner.RunSequential` | internal/hooks/runner.go:147-196 | the loop with the stop flag computes the specified pass |
| `HookRunner.Runner.RunOne` | internal/hooks/runner.go:286-402 | one hook: its row is running, then ended as its exit is classified |
| `HookRunner.Runner.RunParallel` | internal/hooks/runner.go:198-235 | for every schedule of the store updates the rows and the result list are those of the sequential pass without a stop |
| `HookRunner.Runner.Finish` | internal/hooks/runner.go:466-607 | success, hard failure and retry store their hooks status and the error they keep |
| `HookHistory.SettledForever` | internal/hooks/runner.go:147-196 | over any number of cycles, forced ones included, a settled hook is never executed again |
| `HookHistory.SuccessBecomesSkipped` | internal/hooks/runner.go:151-195 | for any hooks: a success row is overwritten by skipped if and only if stopping is on and an earlier executed hook fails hard; otherwise it stays as it is |
| `HookHistory.StoppedNeverRuns` | internal/hooks/runner.go:147-196 | a hook that a cycle stops before is skipped, and is not executed by that cycle nor by any call that follows, forced ones included |
| `HookHistory.SuccessWithSkippedIff` | internal/hooks/classify.go:87-114 | a cycle ends in hooks_success with a skipped hook if and only if the hook was skipped before, no hook fails or asks for a retry, and at least one has succeeded |
| `HookHistory.SuccessUnexecuted` | internal/hooks/runner.go:147-196 | with stopping on, a first hook that fails hard once and then succeeds leaves the archive in hooks_success although no other hook has ever been executed |
| `HookHistory.EndingKeepsAdvisory` | internal/hooks/runner.go:466-607 | an ending of a cycle keeps the nested-skip summary and count; a hard failure does so if and only if its reason spares the summary |
| `HookHistory.SuccessLeaves` | internal/hooks/runner.go:466-607 | success leaves all of a pure advisory, the advisory of an enriched error, and nothing of any other |
| `HookHistory.RefusedCycle` | internal/hooks/runner.go:66-145 | a refused directory or hook fails the cycle without a hook being seeded or executed |
| `HookHistory.AdvisorySurvives` | internal/hooks/runner.go:466-607 | over any sequence of cycles the extracted summary and count stay the same, as long as no security refusal quotes the summary in the middle |
| `HookHistory.CyclesEnd` | internal/service/tick.go:439-465 | from whatever status, and whatever the hooks do, a terminal status is reached within hook_max_retries + 1 automatic cycles over a fixed hook set; unless failures are run again it is the end |
| `TempFails.TempFailRuns` | internal/hooks/runner.go:286-402 | a hook that always exits 75, beside any others, when failures are not run again: it runs at most once more than it has retries left (hook_max_retries at first), and exactly that often if and only if every earlier cycle asks for a retry and in the last one no stop comes before the hook |
| `TempFails.AllTempFailRuns` | internal/hooks/runner.go:286-402 | when all hooks always exit 75: each runs hook_max_retries times; then the first one, or every one when stopping is off, runs once more, or in every further cycle when failures are run again |
| `TempFails.RerunRuns` | internal/service/tick.go:436-465 | when failures are run again, a hook that always exits 75 runs in every cycle before the first that is halted before it, and in none after |
| `TempFails.RerunKeepsBoundIff` | internal/service/tick.go:436-465 | then a bound of n runs is kept if and only if there are at most n cycles or one of the first n + 1 is halted before the hook |
| `TempFails.RerunHasNoLimit` | internal/hooks/classify.go:53-64 | then the first hook, and every hook when stopping is off, runs in each cycle without any limit |
| `TempFails.RerunOfOne` | internal/hooks/classify.go:53-64 | an input: one hook, no retries allowed, failures run again; n cycles execute it n times |
| `TempFails.BoundedIffNotRerun` | internal/hooks/classify.go:53-64 | the bound holds whatever the other hooks do if and only if failures are not run again |
| `Guarantees.SlotsFrame` | internal/mounter/engine.go:147-227 | a step on one archive takes at most one more index slot, and none when the archive itself takes none |
| `Guarantees.FrameWellFormed` | internal/mounter/engine.go:230-266 | the invariant of the daemon carries over from what changes about one archive |
| `Steps.MountNameIsFree` | internal/mounter/engine.go:230-266 | the name chosen for a row is a legal directory entry that no other row stores, its own stored name aside |
| `Steps.MountNameIsNew` | internal/mounter/engine.go:230-266 | nor is it the name of a visible directory, unless the row stores it already |
| `Steps.MountNameIsKept` | internal/mounter/engine.go:230-266 | a row keeps the first choice for its basename as long as no other row and no directory has it |
| `Steps.BeginProcessStep` | internal/mounter/engine.go:398-572 | starting a child keeps the guarantees when the index limit has room; mount names stay distinct |
| `Steps.FailConvertClaimStep` | internal/mounter/engine_jobs.go:109-136 | a failed claim books one attempt and holds no slot, by whichever of its three ways |
| `Steps.BeginConvertStep` | internal/mounter/engine_jobs.go:70-107 | queueing a conversion below the limit keeps the job bound |
| `Steps.CompleteConvertStep` | internal/mounter/engine_jobs.go:320-392 | taking up a conversion product keeps the guarantees |
| `Steps.BeginMountStep` | internal/mounter/engine.go:286-396 | BeginMount keeps all guarantees, whatever the row and the machine answer: frame, invariant, attempt bookkeeping, slot bound, job bound |
| `Steps.CompleteIndexStep` | internal/mounter/engine.go:671-746 | finishing an index and starting the mount keeps the guarantees |
| `Steps.MarkMountedStep` | internal/mounter/engine.go:749-817 | marking mounted keeps the guarantees |
| `Steps.MarkFailedStep` | internal/mounter/engine.go:820-886 | marking failed keeps the guarantees |
| `Steps.ProgressOneStep` | internal/mounter/engine.go:889-916 | one round of progress keeps the guarantees |
| `Steps.PollOneStep` | internal/mounter/engine_jobs.go:395-476 | one finished job, with the start it may trigger, keeps the guarantees |
| `Steps.UnmountStep` | internal/mounter/engine.go:920-976 | unmounting keeps the guarantees |
| `Corners.NothingStartsUnseen` | internal/mounter/engine.go:286-396 | a start that leaves the row outside indexing, mounting and converting has spawned nothing and queued nothing |
| `Corners.CompleteConvertIff` | internal/mounter/engine_jobs.go:320-392 | a product is taken up if and only if it can be fingerprinted and the row is converting or failed |
| `Corners.AdoptionStalls` | internal/mounter/engine_jobs.go:306-318 | a discovered row with a product at another path never starts: nothing changes but partial index files |
| `Corners.FailedJobBooked` | internal/mounter/engine_jobs.go:424-444 | a failed conversion is booked if and only if the table leads from the row status to the failure status |
| `Corners.InterruptedConversionLosesItsError` | internal/mounter/engine_jobs.go:424-444 | a never-mounted row already in mount_failed loses the error of its conversion |
| `Corners.AdoptedRow` | internal/mounter/engine_jobs.go:320-392 | the row that a taken-up product leaves: discovered at its path, under the basename kept for it, without an error, and without a mount path whose name is not the one the basename stands for; nothing else changes |
| `Corners.LaunchFailsIff` | internal/mounter/engine.go:477-572 | a launch fails if and only if the outer cache, the path check or the spawn does |
| `Corners.FailedHandoverCostsTwo` | internal/mounter/engine.go:889-903 | a mount that fails to start right after its index costs two attempts; it fails if and only if the outer cache, the path check or the spawn does |
| `Corners.UnmountSignalsIff` | internal/mounter/engine.go:920-976 | which process an unmount signals: the live child, or the stored pid only of a row already unmounting or absent |
| `Corners.UnmountEnds` | internal/mounter/engine.go:920-976 | how an unmount leaves the row, the registry and the mounts: unmounting, or absent if it is to go or was gone; the pid forgotten; the mount of the live entry, or else the stored one, taken off; nothing else changed |
| `Advisories.EnrichThenExtract` | internal/mounter/nested.go:74-86 | a failure reason enriched with skips gives the summary and the exact count back if and only if the printed samples are readable |
| `Advisories.FailureKeepsSkips` | internal/mounter/engine.go:820-886 | a stored failure of a child with readable skips gives them back |
| `Advisories.SkipsReachTheMountedRow` | internal/mounter/engine.go:671-817 | the skips of the index child are the error text of the mounted row even when the mount child reports none; the row stores the new pid and its first mount |
| `Advisories.SegmentIsSkipOnly` | internal/mounter/nested.go:141-147 | every segment that can be extracted counts as a pure advisory |
| `Advisories.RemountKeepsAdvisory` | internal/mounter/engine.go:749-817 | a stored pure advisory survives a later mount that reports no skips |
| `Advisories.MountClearsError` | internal/mounter/engine.go:749-817 | any other error is gone once the archive is mounted |
| `Starts.StartOutcome` | internal/mounter/engine.go:286-396 | a start spawns a process if and only if every condition read off the row, the registry, the slots and the machine holds; the process builds the index if and only if it is told to, or no index file is there that is not empty once a partial one is deleted, and mounts otherwise; the row shows which |
| `Starts.NeedsIndexIff` | internal/mounter/index.go:79-140 | the decision to build the index, on the index files and the row |
| `Starts.QueueOutcome` | internal/mounter/engine_jobs.go:70-107 | a start queues a conversion if and only if the archive has to be converted, its source is there, the conversions have room and the status leads to converting; row and job are as specified |
| `Starts.PollStarts` | internal/mounter/engine_jobs.go:395-476 | with its conversion a success and its product taken up, a poll is a start of the row that is discovered there, for the index the job was for; the state it starts from is written out |
| `Starts.PollFails` | internal/mounter/engine_jobs.go:424-466 | otherwise the failure is booked exactly when the status table has a way, and the job is gone |
| `Starts.PollWaits` | internal/mounter/engine_jobs.go:395-424 | a job in flight is left alone |
| `Children.IndexChildRuns` | internal/mounter/engine.go:629-668 | an index child whose process runs is left alone, whatever its index file looks like |
| `Children.IndexChildIsDone` | internal/mounter/engine.go:671-746 | with its process gone and an index file that is not empty it hands over to a mount process with its skips, or fails the row when that cannot start |
| `Children.IndexChildIsLost` | internal/mounter/engine.go:820-886 | with its process gone and no such file the row is index_failed with one attempt more and no index |
| `Children.NoChild` | internal/mounter/engine.go:889-916 | an archive without a live entry is left alone |
| `Children.MountChildRuns` | internal/mounter/engine.go:629-668 | a mount child is left alone until its mount is up and its index usable, or its process is gone without a mount |
| `Children.MountChildIsUp` | internal/mounter/engine.go:749-817 | then, with its mount up, the row is mounted and stores its process; nothing else changes |
| `Children.MountChildIsLost` | internal/mounter/engine.go:820-886 | or, without, the row is mount_failed with one attempt more; an index that is not usable goes |
| `Engines.Engine.DeleteIndexFile` | internal/mounter/index.go:118-133 | reports a deletion exactly when the path is not blank and the file is there and can go; then exactly that file is gone |
| `Engines.Engine.ApplyPartialIndexCleanup` | internal/mounter/index.go:135-140 | deletes the index of a row that never mounted, in the partial statuses |
| `Engines.Engine.ActiveCount` | internal/mounter/engine.go:147-206 | the counting loop returns the number of rows of the status with a live entry or a living stored pid |
| `Engines.Engine.TakenMountNames` | internal/mounter/engine.go:230-253 | returns the visible directories and the names of all stored mount paths |
| `Engines.Engine.ChooseMountName` | internal/mounter/engine.go:255-266 | the two-step choice of a name amounts to one allocation that ignores the own stored name |
| `Engines.Engine.FailStart` | internal/mounter/engine.go:574-594 | the new state is the specified one: one attempt booked |
| `Engines.Engine.Claim` | internal/mounter/engine.go:398-475 | the row is claimed before anything that can fail, with its index path and mount path |
| `Engines.Engine.Spawn` | internal/mounter/engine.go:477-572 | failure checks in order, stale holders ended only for mounts, then a fresh registered child whose pid is stored |
| `Engines.Engine.BeginMountProcess` | internal/mounter/engine.go:398-572 | the whole new state and the result are those of the specified step |
| `Engines.Engine.FailConvertClaim` | internal/mounter/engine_jobs.go:109-136 | the whole new state is the specified one, through indexing or the field-only patch where needed |
| `Engines.Engine.BeginConvertAsync` | internal/mounter/engine_jobs.go:70-107 | the row is converting with a job in flight, or the claim has failed |
| `Engines.Engine.CompleteConvertSuccess` | internal/mounter/engine_jobs.go:320-392 | the row is discovered at the product, with its mount path forgotten when its name is stale |
| `Engines.Engine.BeginMount` | internal/mounter/engine.go:286-396 | cleanup, adoption, resume, conversion, relocation and start in the order of the source, with the limit looked at right before a start |
| `Engines.Engine.CheckChild` | internal/mounter/engine.go:629-668 | the status of a child by phase, exit, mount and index |
| `Engines.Engine.CompleteIndexAndStartMount` | internal/mounter/engine.go:671-746 | the index child is gone, its skips are stored and carried over to the mount child |
| `Engines.Engine.MarkMounted` | internal/mounter/engine.go:749-817 | fresh skips or a stored pure advisory are the error that stays; the live entry stays |
| `Engines.Engine.MarkFailed` | internal/mounter/engine.go:820-886 | bad index deleted, live entry dropped, one attempt booked, skips appended to the reason |
| `Engines.Engine.ProgressLive` | internal/mounter/engine.go:889-916 | every live child of the moment is visited once, in some order, each by the specified step |
| `Engines.Engine.PollConvert` | internal/mounter/engine_jobs.go:395-476 | every job of the moment is visited once, in some order, each by the specified step |
| `Engines.Engine.Unmount` | internal/mounter/engine.go:920-976 | the row is moved first and the process looked up afterwards |
| `Runs.NextStep` | internal/mounter/engine.go:286-976 | every event of the daemon but a discovery is a step on the one archive it is about |
| `Runs.NextKept` | internal/mounter/engine.go:286-976 | every event, a discovery included, keeps the invariant, the bounds, every row, and the bookkeeping of its attempts |
| `Runs.RunKeepsBounds` | internal/mounter/engine.go:147-227 | over every run of discoveries, starts, progress, polls, unmounts, repairs, hook moves, ending children and reporting workers: index slots stay within the larger of the limit and their first number, so do convert jobs, the stored mount names stay distinct, and no row disappears |
| `Runs.RunFromIdle` | internal/mounter/engine.go:208-227 | from an idle daemon the limits are never exceeded |
| `Runs.RestartsAreBounded` | internal/mounter/attempts.go:8-16 | between two resets of the attempts a retryable row is started from mount_failed, by a start or by the poll of its conversion, at most max_mount_attempts times, whatever else happens |
| `Runs.RestartsArePaid` | internal/mounter/attempts.go:8-16 | the measure behind it: every return to mount_failed has raised the attempts |
| `Retries.PollSpawnsIff` | internal/mounter/engine_jobs.go:395-476 | a poll starts a process for a mount_failed row if and only if a conversion has succeeded, its product can be fingerprinted, the slot is free and the machine does not object; the row then shows indexing or mounting |
| `Retries.GivenUpStartsIff` | internal/mounter/engine_jobs.go:446-470 | of everything that happens without an operator, a row that may not be retried is started by that poll and by nothing else |
| `Retries.StartedAtTheLimit` | internal/mounter/engine_jobs.go:446-470 | a row with all attempts used up on an idle daemon is indexing in a fresh process after such a poll |
| `Retries.PollStrandsIff` | internal/mounter/engine_jobs.go:320-470 | such a poll leaves the row discovered, not retryable and with nothing under way if and only if the product is taken up and the start after it comes to nothing: another product is in the way, a limit is reached, or a failure cannot be booked on the status |
| `Retries.StrandedForGood` | internal/service/tick.go:299-435 | a row so left behind is never worked on again without an operator or a reset: over every run it has no process and no conversion |
| `Retries.PollStrandsForGood` | internal/service/tick.go:299-435 | both together: after such a poll, whatever follows, the row stays idle and new work leaves it alone |
| `Retries.AllStartsAreBounded` | internal/mounter/attempts.go:8-16 | over every run all starts of a row from mount_failed number at most max_mount_attempts, plus one for each time it is begun after it was given up |
| `Tidiness.NextTidy` | internal/mounter/engine.go:286-976 | every event keeps every archive tidy: index files carry the id of their row, rows that are unmounting or gone store no pid, and the path of an active row is the one its process was started with |
| `Tidiness.FoundTidy` | internal/state/store.go:389-432 | a row that has just been discovered keeps the daemon tidy |
| `Tidiness.RunKeepsTidy` | internal/mounter/engine.go:286-976 | so does every run |
| `Tidiness.RestartKeepsTidy` | internal/mounter/engine.go:66-81 | and losing registry and jobs in a restart, with the processes still there |
| `Tidiness.LifeKeepsTidy` | internal/reconcile/reconciler.go:151-171 | and a whole life of a daemon: it starts on what the last one left, boots, and runs |
| `Tidiness.LifeKeepsLimits` | internal/mounter/engine.go:208-227 | over a life that boots every stored row the index-slot and job limits hold absolutely, whatever processes and pids the last daemon left |
| `Tidiness.TidyNoSharing` | internal/mounter/engine.go:402-475 | no two archives share a mount path or an index path |
| `Tidiness.FixedPointAfterRun` | internal/reconcile/reconciler.go:101-122 | after every run one reconcile pass reaches its fixed point |
| `Tidiness.UnmountAfterRun` | internal/mounter/engine.go:920-976 | after every run an unmount ends the live child of its row and no other process |
| `Tidiness.BootAfterRun` | internal/reconcile/decide.go:214-313 | after every run the boot pass leaves no pid in any listed row, absent ones included |
| `RepairTheorems.InProgressFailsIff` | internal/reconcile/decide.go:70-172 | an indexing or mounting row is failed exactly when its process is gone or its time is up and the registry does not report it finished |
| `RepairTheorems.MissingMountIsNoFailure` | internal/reconcile/decide.go:70-172 | without a dead pid, an exited child or a timeout it is never failed, whatever the mount probe says |
| `RepairTheorems.RepairIsAccepted` | internal/reconcile/apply.go:10-116 | the status table has every edge that reconcile asks for |
| `RepairTheorems.RepairKeepsHistory` | internal/reconcile/apply.go:74-116 | a repair books a failure once, and never touches hook status, first mount or mount path |
| `RepairTheorems.ReconcileFixedPoint` | internal/reconcile/reconciler.go:101-122 | when different archives have different paths one pass reaches a fixed point: all its moves are accepted, and a second pass with the same probes changes nothing and reports only ok actions, deletions that cannot succeed aside |
| `RepairTheorems.BootPassResult` | internal/reconcile/decide.go:214-313 | boot leaves every listed row exactly as specified: absent if and only if it was, or was at work and its archive is gone; mount_failed or discovered by its first mount and former status otherwise; retryable if it was or its work goes on; without a pid; history and paths untouched; by legal moves only |
| `RepairTheorems.SecondBootIsIdle` | internal/reconcile/reconciler.go:151-171 | a second boot plans nothing |
| `RepairTheorems.RepairStep` | internal/reconcile/apply.go:10-116 | repairing one row keeps all guarantees of an engine step |
| `Repairs.MountedOutcome` | internal/reconcile/decide.go:181-209 | a mounted or hooks_running row is left alone if and only if its stored process runs and its mount is there; otherwise it fails for a remount if its archive is there, and is absent if not |
| `Repairs.ConvertingOutcome` | internal/reconcile/decide.go:70-96 | a converting row is left alone if and only if its job is known; otherwise it fails |
| `Repairs.InProgressOutcome` | internal/reconcile/decide.go:70-172 | an indexing or mounting row is left alone if and only if nothing is wrong or the registry reports it fine; otherwise it fails in its phase |
| `Repairs.LeavingOutcome` | internal/reconcile/decide.go:12-60 | an unmounting row becomes absent if and only if its archive is gone |
| `Repairs.QueuedOutcome` | internal/reconcile/decide.go:12-68 | a queued row that never mounted loses an index file that can be deleted, and nothing else happens to queued rows |
| `Repairs.PassOutcome` | internal/reconcile/reconciler.go:101-122 | a pass over rows with different paths does to each listed row what its repair from the state at the start does |
| `Reconcilers.CleanupPassResult` | internal/reconcile/reconciler.go:194-219 | after the clean-up no listed row has a deletable partial index, and the number reported is the number of files gone |
| `Reconcilers.Reconciler.ApplyFail` | internal/reconcile/apply.go:74-116 | the new state is the specified one: entry dropped, mount and index taken down, failure booked |
| `Reconcilers.Reconciler.ApplyAction` | internal/reconcile/apply.go:10-159 | each kind of action has the specified effect and reports whether the store accepted it |
| `Reconcilers.Reconciler.Reconcile` | internal/reconcile/reconciler.go:101-122 | the loop over rows listed at its start computes the specified pass |
| `Reconcilers.Reconciler.Boot` | internal/reconcile/reconciler.go:151-171 | the loop computes the specified boot pass |
| `Reconcilers.Reconciler.CleanupPartialIndexes` | internal/reconcile/reconciler.go:194-219 | the loop computes the specified clean-up |
| `Sorting.SortedResult` | internal/service/tick.go:280-297 | the candidates are a permutation of the listing, ordered by size, basename and id |
| `Sorting.SortedCanonical` | internal/service/tick.go:280-297 | the order depends on the rows alone, not on the order of the listing |
| `Sorting.BeforeIff` | internal/service/tick.go:280-297 | the order is by size, then basename, then id |
| `Sorting.PrecedesIff` | internal/service/tick.go:280-297 | strings are compared where they first differ, and a proper prefix comes first |
| `Services.Service.RetryStuckIndexWork` | internal/service/tick.go:407-435 | takes up rows in progress without a process or a job, indexing first |
| `Services.Service.IndexDiscovered` | internal/service/tick.go:313-357 | starts eligible discovered rows in order until its own count reaches the limit |
| `Services.Service.RetryFailed` | internal/service/tick.go:359-405 | retries eligible failed rows until the first that finds its kind of slot taken |
| `Services.Service.StartPendingWork` | internal/service/tick.go:299-405 | counters are read before the stuck rows are taken up, as in the source |
| `Services.Service.Tick` | internal/service/tick.go:68-105 | a cycle is a run of engine steps and keeps the index-slot and job bounds, although its counters are stale |
| `Services.PendingWorkReaches` | internal/service/tick.go:299-435 | starting new work is a run of engine steps |
| `Services.ReachesKeepsBounds` | internal/mounter/engine.go:147-227 | whatever is reached by a run keeps the bounds and the invariant |
| `Services.NewWorkLeavesAlone` | internal/service/tick.go:299-435 | new work never touches a row that may not be retried, nor one that is not discovered, in progress or mount_failed |
| `NewWork.UnwantedIsLeftAlone` | internal/service/tick.go:299-435 | a cycle touches no archive that is not wanted: on low disk no discovered one, and never one that has not settled, is no regular file, may not be retried, or is being worked on |
| `NewWork.RunningIsLeftAlone` | internal/service/tick.go:407-435 | work in progress whose stored process runs is left alone |
| `NewWork.FirstNewIsIndexed` | internal/service/tick.go:299-357 | with disk and a slot by the counter, the discovered archive that is ready and comes first in the documented order is indexed in a new process, when the start spawns one |
| `NewWork.CycleIndexesFirst` | internal/service/tick.go:299-357 | so a whole cycle does, with nothing to take up, a free slot and a machine without objections |
| `NewWork.RetryPassBegins` | internal/service/tick.go:359-405 | the first failed archive that is ready is begun again if its kind of slot has room by the counters, and otherwise nothing is retried |
| `NewWork.CycleRetriesFirst` | internal/service/tick.go:359-405 | so a whole cycle does with nothing to take up and nothing new: it builds the index if the file is missing or empty, and mounts if not |
| `NewWork.CycleTakesUpFirst` | internal/service/tick.go:407-435 | the first stuck indexing row of the listing is taken up in a new process |
| `NewWork.FreshPassIsCounted` | internal/service/tick.go:313-357 | the pass over discovered archives counts every process it spawns, and spawns no more than its counter leaves |
| `NewWork.RetryPassIsCounted` | internal/service/tick.go:359-405 | so does the pass over failed archives, for both kinds of slots |
| `NewWork.CountedIs` | internal/service/tick.go:340-355 | what a start counts for |
| `NewWork.FoundIsWanted` | internal/service/tick.go:313-357 | an archive that has just been found is wanted exactly when it is a settled file and there is disk |
| `Orphans.ReconcileOrphanMounts` | internal/mounter/orphans_unix.go:189-265 | returns exactly the condemned pids in listing order and leaves the specified state |
| `Orphans.KilledIff` | internal/mounter/orphans_unix.go:189-240 | a listed process is killed if and only if it is under the root and is not the tracked child of an active archive at that mount path |
| `Orphans.UnderRootIff` | internal/mounter/orphans_unix.go:175-185 | a path is under the root when it is the root or continues it after a slash |
| `Orphans.ClearedIff` | internal/mounter/orphans_unix.go:240-265 | a mount is cleared if and only if a process was killed there, no process tracked for it is left running, and it comes off |
| `Orphans.BootKillsAll` | internal/service/service.go:343-351 | right after the boot pass, where the service calls the clean-up, every listed process under mount_root is killed, those of working mounts included |
| `Orphans.TrackedChildSurvives` | internal/mounter/orphans_unix.go:199-240 | after every run the tracked child of an active archive survives the clean-up, when each process of the daemon is listed by its own command line |
| `Orphans.TrackedIsListedAtItsPath` | internal/mounter/orphans_unix.go:70-91 | the mount path parsed from the command line of a tracked child is the clean path that its row stores |
| `Orphans.OnlyTrackedRemain` | internal/mounter/orphans_unix.go:222-240 | what still runs under the root afterwards belongs to an active archive |
| `RatarmountArgv.FilterRecursiveFromExtras` | internal/mounter/cmd.go:85-109 | the loop with the skipNext flag computes the specified filter |
| `RatarmountArgv.FilterRecursiveResult` | internal/mounter/cmd.go:85-109 | the recursion filter keeps order, leaves no recursion flag, and is idempotent |
| `RatarmountArgv.FilterModeResult` | internal/mounter/cmd.go:111-123 | the mode filter keeps order and every other argument as often as it came, and is idempotent |
| `RatarmountArgv.RecursionIsGone` | internal/mounter/cmd.go:85-109 | no argument that asks for recursion is left, and arguments without any are all left |
| `RatarmountArgv.ModeIsGone` | internal/mounter/cmd.go:111-123 | the same for the two arguments that choose the mode |
| `RatarmountArgv.DebugArgsAre` | internal/mounter/cmd.go:42-48 | the debug level is given when there is one, never beyond three |
| `RatarmountArgv.FlagArgsAre` | internal/mounter/cmd.go:53-63 | each flag of the request is given exactly when it is asked for, in order |
| `RatarmountArgv.PhaseArgsAre` | internal/mounter/cmd.go:72-80 | the extensions are given for a recursive request that has some, the mode in the index phase |
| `RatarmountArgv.BuildRatarmountCmd` | internal/mounter/cmd.go:33-83 | the appended argument vector is the specified one |
| `RatarmountArgv.ModeIsThePhase` | internal/mounter/cmd.go:65-80 | whatever the extras say, the whole vector holds --no-mount if and only if it is the index phase or one of its values (binary, paths, log file, extension list) happens to be that text; no mode flag among the extras is kept |
| `RatarmountArgv.ParseRatarmountMountPath` | internal/mounter/orphans_unix.go:70-91 | the parser of a process command line computes the specified result |
| `RatarmountArgv.ParseOfBuild` | internal/mounter/orphans_unix.go:70-91 | the mount path read back from a built command is its clean form, for all extra arguments; it is read at all if and only if the binary is ratarmount and the path is neither blank nor the archive |
| `RatarmountArgv.ParseReturnsMountPath` | internal/mounter/orphans_unix.go:70-91 | a clean mount path comes back exactly, in the index phase and in the mount phase |
| `StatusStream.ArchiveIdsAre` | internal/api/sse_diff.go:166-187 | the archive event names exactly the new or changed rows and exactly the removed ids |
| `StatusStream.SortIdsAscends` | internal/api/sse_diff.go:170-186 | the ids of an event ascend, each once |
| `StatusStream.DiffSnapshots` | internal/api/sse_diff.go:105-188 | the delta built step by step is the specified list of events |
| `StatusStream.SilentIff` | internal/api/sse_diff.go:105-188 | no event is sent if and only if nothing that is watched differs; equal snapshots send none |
| `StatusStream.CountsSentIff` | internal/api/sse_diff.go:105-188 | the counts are told exactly when counts, disk, time of the scan or a watched top-level key differ |
| `StatusStream.ScanSentIff` | internal/api/sse_diff.go:105-188 | a scan is told exactly when it has a time, and a new one |
| `StatusStream.MetricsSentIff` | internal/api/sse_diff.go:105-188 | the metrics are told exactly when they differ |
| `StatusStream.DiskSentIff` | internal/api/sse_diff.go:105-188 | the disk is told exactly when it becomes low or is no more |
| `StatusStream.TruthIs` | internal/api/jsonutil.go:87-105 | what counts as true in a snapshot |
| `StatusStream.DeltaAgrees` | internal/api/sse_diff.go:105-188 | a client that agrees with one snapshot agrees with the next after applying the delta |
| `StatusStream.Stream.EmitRefresh` | internal/api/sse.go:91-138 | the events sent, the advanced baseline and the tick counter are the specified ones |
| `StatusStream.StreamAgrees` | internal/api/sse.go:91-138 | after any sequence of refreshes the client agrees with the last snapshot that was ok |
| `StatusStream.LastUsableIs` | internal/api/sse.go:91-138 | the last ok snapshot is the last one that did not say it was not ok, or the one before all of them |
| `StatusStream.OnlyOkCounts` | internal/api/sse.go:91-138 | a snapshot that is not ok is neither diffed nor diffed against; any other becomes the baseline |
| `StatusStream.ClientKeepsUp` | internal/api/sse.go:39-86 | the same from the connection on, whether or not the first snapshot is ok |
| `StatusStream.FullsAddUp` | internal/api/sse.go:121-129 | every so many ticker refreshes send a full snapshot, however many notified ones lie between |
| `IndexAnalysis.FindContainers` | internal/metrics/index_analysis.go:302-335 | both scans together find exactly the files with an entry or a stored row under them |
| `IndexAnalysis.AnalyzeIndexRows` | internal/metrics/index_analysis.go:285-373 | the loops compute the specified sums and counts |
| `IndexAnalysis.ContainerIff` | internal/metrics/index_analysis.go:302-335 | for a file with a plain name: it is a container if and only if some row lies strictly under it, so the second scan adds nothing |
| `IndexAnalysis.LeavesAreAntichain` | internal/metrics/index_analysis.go:339-362 | no deep-leaf file lies under another |
| `IndexAnalysis.SizesAddUp` | internal/metrics/index_analysis.go:337-373 | the naive sum is deep leaves plus opaque bytes plus container bytes, and the deep size is complete if and only if every archive-named file was opened |
| `IndexAnalysis.OrderDoesNotMatter` | internal/metrics/index_analysis.go:285-373 | the analysis does not depend on the order of the rows |
| `IndexAnalysis.PrimaryIsHonest` | internal/metrics/index_analysis.go:86-94 | the reported size never exceeds the naive sum, and a complete one leaves out exactly the container bytes |
| `StableGate.StableFileGate.Check` | internal/scanner/stable.go:102-131 | in every mode the answer is the one that the whole call history determines |
| `StableGate.StableFileGate.Peek` | internal/scanner/stable.go:62-99 | likewise, without changing the gate |
| `StableGate.StableFileGate.Reset` | internal/scanner/stable.go:39-45 | forgets one path, or all for the empty path |
| `StableGate.StableFileGate.ForgetMissing` | internal/scanner/stable.go:48-58 | forgets exactly the paths that are not present |
| `StableGate.SettledByScan` | internal/scanner/stable.go:102-131 | a scan settles a file exactly when the previous observation since the last reset was the same |
| `StableGate.OtherPathsDoNotMatter` | internal/scanner/stable.go:39-131 | no call about another path changes what the history says of a path |
| `StableGate.ForgottenBy` | internal/scanner/stable.go:39-58 | a reset forgets its path or all, what is not present is forgotten, and nothing else |
| `StableGate.StableIff` | internal/scanner/stable.go:118-139 | stable means the same twice in a row, and old enough where the mode looks at the age |
| `StableGate.AssumedSettles` | internal/scanner/stable.go:103-106 | a file that is assumed stable has settled at once |
| `StableGate.PeekWithoutClock` | internal/scanner/stable.go:62-99 | without a clock a peek goes by the scans alone, and says no in the mode of age alone |
| `StableGate.PeekSeesChange` | internal/scanner/stable.go:62-77 | a file that is not as it was seen last is not stable |
| `StableGate.StartsOver` | internal/scanner/stable.go:39-58 | after a reset the next scan cannot find the file stable |
| `StableGate.PeekAgreesWithCheck` | internal/scanner/stable.go:62-131 | a peek right after a normal check at the same clock agrees, in all modes |
| `StableGate.PeekStaysStable` | internal/scanner/stable.go:62-99 | a file that a peek found stable stays so as time goes on |
| `Quarantine.Directory.PruneByAge` | internal/cleaner/quarantine.go:43-70 | removes the expired entries that can be removed, and hands on the young ones |
| `Quarantine.Directory.PruneBySize` | internal/cleaner/quarantine.go:72-97 | removes what the cap specification removes, and books it |
| `Quarantine.Directory.Prune` | internal/cleaner/quarantine.go:16-99 | what is left is what both passes leave; freed and remaining bytes, and removed and remaining entries, add up, whichever removals fail |
| `Quarantine.CapIsShortestPrefix` | internal/cleaner/quarantine.go:72-97 | the cap removes a shortest oldest-first prefix |
| `Quarantine.AgeResult` | internal/cleaner/quarantine.go:43-70 | when removals succeed only entries younger than the retention time are left, and without a cap all of those |
| `Quarantine.CapResult` | internal/cleaner/quarantine.go:72-97 | with a cap what is left fits, and nothing removed for size is younger than what stayed |
| `Durations.ParseOfShape` | internal/config/duration.go:11-109 | a text of the grammar is read as its number times its unit |
| `Durations.ParsesIff` | internal/config/duration.go:11-109 | the parser accepts exactly the texts of the grammar |
| `Durations.NumbersAreSeconds` | internal/config/duration.go:20-45 | of what is no text exactly the numbers from zero on are taken, as seconds |
| `Durations.RoundTrip` | internal/config/duration.go:117-139 | parsing a printed duration is the identity on every whole number of milliseconds |
| `Durations.FormatIsInjective` | internal/config/duration.go:117-139 | different durations are printed differently |
| `Durations.ParsedIsNotNegative` | internal/config/duration.go:20-115 | no accepted value is negative |

## Left out

- A bound on concurrent mounts: a finished index starts its mount without looking at that limit, so no such bound holds.
- Scanning: the discovery of a new archive is an event of runs; reappearance, content changes, the reset of attempts and the removal of rows go through store operations that are not part of this model; runs are meant between two of them.
- Services.Service.Tick: leaves out reload, scanning, cleaning and the hook pass; hook cycles are modelled on their own state, and enter runs as moves to hooks_running and back.
- HookRunner.Runner.RunForArchive: hook discovery, the security check and the processes are inputs; error texts built from exit codes are values, not strings.
- HookHistory.AdvisorySurvives: assumes that no security refusal quotes the summary in the middle of its reason; without that the summary is lost, as `HookHistory.EndingKeepsAdvisory` says.
- NestedSkips.PreserveKeepsSegment: the collection of skip lines from the error stream of a child is not modelled, only what is kept of them.
- RepairTheorems.ReconcileFixedPoint: the clock and the probes are the same in both passes, as they are asked within one; a probe that changes its mind is a new pass.
- Reconcilers.Reconciler.Reconcile: which optional probes and callbacks are wired is a parameter; in production the registry probe, the convert probe and the unmount callback are not.
- ArchiveStore.Store.InsertDiscovered: time stamps, fingerprint and the overlay path are no columns here.
- ArchiveStore.Store.Transition: an update that moves an archive path onto one already stored is refused by the table; for the two steps that move a path this is part of what the machine answers (`fingerprint`, `relocation`).
- Engines.Engine.CompleteConvertSuccess: size, time stamp, fingerprint and duration columns, and the removal of superseded source files.
- Engines.Engine.Spawn: environment, pipes and the outer cache copy are answers of the machine; overlay paths are not stored.
- Engines.Engine.BeginMount: an engine call works on the stored row; the snapshot a caller passes in is the stored row in every caller modelled here. The relocation jobs that are reserved for later use are empty.
- Runs.RestartsAreBounded: counts the starts of rows that may be retried; `Retries.AllStartsAreBounded` counts the others too, which an operator can ask for at any time. A reset of the attempts, and a boot pass, which makes the rows it takes down retryable again, begin a new count.
- Orphans.ReconcileOrphanMounts: reading the process table, signal escalation and the unmount tools; only the command line of a process is parsed.
- Orphans.KilledIff: assumes an absolute mount root, as does Orphans.TrackedChildSurvives.
- StatusStream.DiffSnapshots: snapshots are JSON values with the fields the stream looks at; equality after a JSON round trip is equality of those values. The web client is a replaying one; its keeping of size columns across status rows is not modelled.
- IndexAnalysis.AnalyzeIndexRows: reading the index database, the table of archive suffixes (a predicate on names here), and 64-bit overflow of the sums.
- Durations.ParsesIff: numerals are exact here, so one that is too large for binary floating point, which the source refuses with a range error, is accepted.
- Durations.RoundTrip: rounding of binary floating point, and values that are not whole milliseconds.
- Quarantine.Directory.Prune: symbolic links, path safety and the sizes of directory trees, which are part of an entry here.
- MountNames.AllocateFits: a truncated name may end in a dot or an underscore.
- SQLite, migrations, HTTP handlers, CLI formatting, metrics text, doctor checks, the web interface, configuration field validation and path mapping: plumbing or flat branching.
