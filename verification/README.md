# ClawsomeFlow backend: verified models

ClawsomeFlow runs flows of coding agents over Git worktrees. Its backend is one asyncio process with a few
places where correctness depends on interleavings, crashes or text that users control. This project models
those places in Dafny and proves what their code and documentation promise:

- **Named locks** (`AsyncLock`, `NamedLocks`, `NamedLockTheorems`, `NamedLockKeys`, `NamedLockQuiet`,
  `NamedLockProgress`, class `AsyncioBackend.Backend`). A table keeps one `asyncio.Lock` per key, counts holders and
  waiters, evicts a lock that nobody refers to and creates it again later. Timeouts, cancellation of the caller and a
  deferred release callback race with it. The model is a step system over an explicit `asyncio.Lock` (locked flag, deque
  of waiters, woken but not yet run waiters); ready steps run in any order, which includes the order in which the event
  loop would run them.
- **Repository file lock** (`FilePolling`, `FileLock`, `FileLockRuns`, `FileLockProgress`, classes in
  `FileLockContext`). A thread polls a non-blocking file lock while the coroutine that waits for it may be cancelled at
  any point; a guard and two flags decide who releases. Any number of contexts and outside processes contend for the
  file.
- **Upgrades** (`Versions`, `VersionSyntax`, `Upgrade` with class `DataDir`, `UpgradeHistory`, `UpgradeCrash`,
  `UpgradeOutcome`). A version marker that is a high-watermark, and a ledger of applied migrations, over whole histories
  of upgrades, downgrades, failures and crashes.
- **Events and operations** (`Feeds`, `Bus`, `FeedProgress`, classes in `Broadcaster`, `Operations` with class
  `OpRegistry`, `OperationFields`, `OpSocket`, `OpStream`, `OpStreamProgress`). Bounded drop-oldest queues with a loss
  flag, an ordered registry with a cap, and the subscribe-then-snapshot stream over both.
- **Text codecs** (`Texts`, `Descriptions` with class `FlowTask`, `RuntimePrompts`, `Tags`, `CustomSection`,
  `WrittenTexts`). Two task fields stored in one text, a prompt put in front of every task, and the user-owned section
  of AGENTS.md.
- **Decisions on a run** (`RunReview`, class `RunStore.Runs`, `ComplaintTask`, `RunHistory`, `RunOutcome`). Merge
  review, complaint, abort, drain and the sweep at startup.
- **Creating an agent** (`ChatRetry`, `ChatHistory`, `CreateCancel`, `CreateCancelRuns`, `CreateCancelSteps`,
  `CreateCancelBarred`, `CreateCancelOps`, class `CreateTables.Registry`). The retry loop around the agent command, and
  a create that is cancelled while its bootstrap task runs.

Where the source updates an object in place there is a class whose methods are proved equal to a function of the
old state. The theorems are about runs of that function: what every run keeps, and what an operation achieves, in the
fields of the state. All text is a sequence of characters.

## Findings

Where the source does not do what it says, or what one would expect of it. Each entry names an input or a run that
shows it and the exact condition.

- `concurrency.py:37-55` promises that a key leaves `_locks` once nobody holds or awaits it. A caller cancelled just
  after its inner acquire completed leaves the key behind (`NamedLockKeys.CancelledAcquireLeavesKey`). A step breaks
  the equality of the two key sets exactly when it gives up the last reference while the lock is locked
  (`NamedLockKeys.KeysStayEqualIff`).
- `concurrency.py:101-105` releases a lock that a timed-out acquire got after all. With `asyncio.Lock` as modelled
  that branch is never taken (`NamedLockTheorems.TimeoutNeverAcquired`).
- `upgrade.py:182-189` seeds the ledger without looking at `applies_after` (`UpgradeHistory.SeedingRunsHeldBackMigration`;
  no shipped migration sets it). The new gate equals the old one exactly for registries in which that field holds
  nothing back (`UpgradeHistory.SeedingMatchesOldGateIff`).
- `events.py:107` rebinds the payload, so a subscriber can be told of a loss it did not have
  (`Feeds.FlagWithoutLoss`): it is flagged exactly when its queue or one served before was full
  (`Feeds.PublishAllAt`). No loss goes untold.
- `operations.py:113-133` does not evict (`Operations.UnknownOpBreaksCap`): the cap is exceeded exactly when an unknown
  op ends while the registry is full (`Operations.TerminateKeepsCapIff`). An op that was evicted while it ran ends
  without its user, and everybody is shown it (`OperationFields.EvictedOpLosesItsUser`,
  `OperationFields.EndedOpShownIff`).
- `models.py:96` states the round trip of the description codec without conditions
  (`Descriptions.DocumentedRoundTripFails`); it holds exactly under those of `Descriptions.DocumentedRoundTripIff`.
- `openclaw_agents.py:594-613` accepts content that holds an end tag (`CustomSection.EndTagBreaksLaws`); it is cut when
  it is read back (`CustomSection.ExtractReplace`). The lens laws hold exactly without one
  (`CustomSection.GetPutIff`, `CustomSection.PutPutIff`).
- `runs.py:3337-3372`: whether a finished review counts as "with conflicts" depends on the last decision alone
  (`RunHistory.EarlierFailureIsForgotten`, `RunHistory.ReviewEnds`).
- `controller.py:5414-5432` stores the terminal row and then awaits the cleanup inside the complaint task, which a
  drain cancels; `engine.py:774-783` then stores `awaiting_user_complaint` over it
  (`RunHistory.DrainRevertsCompletedRun`). A terminal run stays terminal exactly when no drain handler comes to that
  write (`RunHistory.TerminalIsFinalIff`). The other two handlers store another terminal status over a completed run
  (`RunHistory.CleanupOverwritesCompletedRun`, `RunHistory.CompletedStaysIff`).
- `engine.py:755-877`: a complaint task cancelled before its first step, or inside a handler, leaves its run in
  `complaint_processing` with nobody to end it before a restart (`RunHistory.EarlyCancelStrandsRun`), and nothing else
  does (`RunHistory.NoStuckComplaintIff`).
- `openclaw_agents.py:395-401`: a cancel that returns releases the reservation of the id whoever holds it, so a create
  that starts between the end of the cancelled bootstrap and that point loses its own
  (`CreateCancelRuns.LateCreateLosesReservation`). `services/openclaw_agents.py:2224` does not catch the cancellation
  of the request, so a lost request keeps the reservation (`CreateCancelRuns.LostRequestLeaksReservation`,
  `CreateCancelRuns.LeakBlocksTheId`). Reservation and create part exactly at these two kinds of step
  (`CreateCancelRuns.ExclusiveIff`, `CreateCancelRuns.OneCreateAtATimeIff`).
- `openclaw_agents.py:340-352` and `1814-1836`: a cancel that ends with an error leaves the cancel flag of the service
  up. The request expires, the flag does not, and `openclaw_agents.py:1653` refuses every create of the id before
  `services/openclaw_agents.py:2201` would clear it (`CreateCancelBarred.RaisedCancelBarsId`,
  `CreateCancelBarred.BarredUntilNextCancel`). `CreateCancelBarred.NeverBarredIff` names exactly the steps that lead
  there.
- `openclaw_agents.py:1814-1834`: a cancel that comes after the last check purges the agent although its create ends as a
  success, and the op says so (`CreateCancelOps.PurgedCreateIsReportedAsSuccess`). At the return of a cancel the op is a
  success exactly if the create committed in between (`CreateCancelOps.CancelOutcomeIff`).
- `openclaw_agents.py:1790-1836`: a cancel returns normally although the bootstrap's cleanup left an artifact behind
  (`CreateCancelRuns.FailedCleanupLeavesArtifact`, `CreateCancelRuns.CancelLeavesNothingIff`).
- `openclaw_agents.py:247-249` looks the event up by id, so a cancelled bootstrap passes its check once a newer create
  has registered (`CreateCancelRuns.NewerCreateLetsCancelledOnePass`, `CreateCancelRuns.PassesCheckIff`).

## Model

| member | source | states |
|---|---|---|
| `NamedLocks.StepKeepsInv` | backend/app/concurrency.py:61-122 | every step of acquire, its inner task, timeout, outer cancellation, deferred callback and release keeps: counts equal open calls, every call refers to the lock in the table, and a lock is locked exactly when one call or one pending callback owns it |
| `NamedLockTheorems.MutualExclusion` | backend/app/concurrency.py:61-122 | over every run, two tasks inside `lock(k)` for the same key are the same task, although lock objects are evicted and created again |
| `NamedLockTheorems.HolderIsSoleOwner` | backend/app/concurrency.py:61-122 | while a holder runs its body its lock is locked, nobody else owns it and no deferred release of it is pending |
| `NamedLockTheorems.EvictedLocksAreDead` | backend/app/concurrency.py:114-122 | a lock that is no longer the one in the table is unlocked, and no call, owner or uncancelled waiter refers to it |
| `NamedLockTheorems.CancelledAcquireNeverAcquires` | backend/app/concurrency.py:80-99 | an inner acquire that was cancelled before it completed does not acquire in any continuation of the run |
| `NamedLockTheorems.TimeoutNeverAcquired` | backend/app/concurrency.py:95-106 | when a timed-out caller resumes, its inner acquire has been retracted: the release on this path is never needed |
| `NamedLockTheorems.ReleaseNeverRaises` | backend/app/concurrency.py:84-91 | both the normal release and the deferred one find their lock locked |
| `NamedLockTheorems.NoLostWakeup` | backend/app/concurrency.py:61-106 | a task suspended on a free lock has a waiter of that lock that is ready to run |
| `NamedLockTheorems.RefsCountCalls` | backend/app/concurrency.py:65-73 | `_refs` has a key exactly while some call of it is open, its value is the number of those calls, and its lock is in the table |
| `NamedLockTheorems.QuietMeansUnlocked` | backend/app/concurrency.py:84-122 | once no call is open and the deferred callbacks have run, no lock is locked and no reference is left |
| `NamedLockQuiet.EveryRunCanComeToRest` | backend/app/concurrency.py:61-122 | every run has a continuation after which no call is open, no callback is pending, no reference is left and nothing is locked |
| `NamedLockProgress.WaitHandsOver` | backend/app/concurrency.py:79-94 | in every run, a waiting caller whose inner acquire has completed holds its key as soon as its wait returns, and everybody else holds what they held |
| `NamedLockProgress.TimeoutEndsCall` | backend/app/concurrency.py:95-106 | in every run, a waiting caller whose timer fires first cancels its inner acquire, lets it run and resumes: then its call is over, its acquire retracted, no callback left behind, and everybody else holds what they held |
| `NamedLockProgress.FreeKeyIsGrantedIff` | backend/app/concurrency.py:61-79 | a new acquire gets the key, at once or through its inner task and the wait, if and only if the key has no lock or a free one in whose queue everybody has been cancelled |
| `NamedLockProgress.OthersQueueLast` | backend/app/concurrency.py:61-71 | otherwise it joins the end of the queue of the lock in the table, and nobody is overtaken |
| `NamedLockProgress.ReleaseHandsOver` | backend/app/concurrency.py:77-112 | the release of a held key hands it to the undisturbed first in the queue, with or without a timeout: that one holds it next, the releaser is gone, everybody else holds what they held |
| `NamedLockProgress.CancelledCallerLeaves` | backend/app/concurrency.py:80-91 | a cancelled caller is gone at its next step, leaves its inner task to the deferred callback, and nobody else notices |
| `NamedLockProgress.CallbackFreesLock` | backend/app/concurrency.py:84-90 | the deferred callback frees the lock of its task exactly if that one acquired, and no other lock |
| `NamedLockProgress.ReleaseFreesKey` | backend/app/concurrency.py:108-122 | the end of a body frees the lock of its key and no other, and key and count stay in the two tables exactly while another call of the key is open |
| `NamedLockKeys.GivesUpIff` | backend/app/concurrency.py:61-122 | a call ends other than by its release exactly when its caller resumes cancelled or timed out, or its own `lock.acquire()` runs after a cancel |
| `NamedLockKeys.KeysStayEqualIff` | backend/app/concurrency.py:114-122 | from equal key sets of `_locks` and `_refs`, a step keeps them equal if and only if it is not such a step that gives up the last reference to a locked lock |
| `NamedLockKeys.ExtraKeysAreLate` | backend/app/concurrency.py:84-91 | a key in `_locks` without references is the key of an acquire that completed as its caller was cancelled; its lock is owned by that pending callback or unlocked |
| `NamedLockKeys.NoLateCancelSameKeys` | backend/app/concurrency.py:65-73 | without such a cancellation both tables have the same keys in every run |
| `NamedLockKeys.CancelledAcquireLeavesKey` | backend/app/concurrency.py:84-91 | a five-step run after which nothing is open or pending and the key is still in the table |
| `AsyncioBackend.Backend.Acquire` | backend/app/concurrency.py:61-73 | `acquire` up to its first suspension, on the dictionaries themselves: the new state is the start step of the old one |
| `AsyncioBackend.Backend.DecrefKey` | backend/app/concurrency.py:114-122 | `_decref` counts down or drops the reference, and evicts the lock only when it is unlocked |
| `AsyncioBackend.Backend.OneHolder` | backend/app/concurrency.py:61-122 | on the valid object, two holders of a key are the same call and the lock of the key is locked |
| `AsyncioBackend.Backend.RunTaskOf` | backend/app/concurrency.py:78-82 | the inner task runs on the shared lock object |
| `AsyncioBackend.Backend.CancelCaller` | backend/app/concurrency.py:80-85 | a cancel of the caller's task marks the wait, or cancels its own `lock.acquire()` |
| `AsyncioBackend.Backend.WaitReturns` | backend/app/concurrency.py:95-99 | the wait returns: the caller holds the lock, fails, or cancels its inner acquire |
| `AsyncioBackend.Backend.WaitRaises` | backend/app/concurrency.py:80-94 | the caller is cancelled: the inner acquire is cancelled, the callback registered and the reference dropped |
| `AsyncioBackend.Backend.RetractReturns` | backend/app/concurrency.py:99-106 | the timed-out caller resumes, releases if it acquired, and gives up |
| `AsyncioBackend.Backend.RunCallback` | backend/app/concurrency.py:86-90 | the deferred callback releases exactly if the inner acquire succeeded |
| `AsyncioBackend.Backend.ReleaseKey` | backend/app/concurrency.py:108-112 | `release` frees the lock in the table and drops the reference |
| `FilePolling.AcquireFileLock` | backend/app/repo_merge_lock.py:209-253 | polling ends at the first attempt that is not a plain retry, with the outcome of that attempt: locked, another error, aborted, or past the deadline, in this order |
| `FilePolling.AttemptsBounded` | backend/app/repo_merge_lock.py:227-253 | at most ceil(timeout / poll) + 1 attempts when every sleep takes at least a poll |
| `FilePolling.BoundIsReached` | backend/app/repo_merge_lock.py:227-253 | that bound is attained |
| `FilePolling.AbortStopsPolling` | backend/app/repo_merge_lock.py:246-250 | once the abort flag is up before attempt k is judged, attempt k is the last and is not reported as a timeout |
| `FilePolling.PollingDetermined` | backend/app/repo_merge_lock.py:227-253 | the specification admits exactly one number of attempts and one outcome |
| `FilePolling.LockedIff` | backend/app/repo_merge_lock.py:227-253 | the lock is reported as taken exactly when the last attempt took it |
| `FileLockRuns.OneBodyAtATime` | backend/app/repo_merge_lock.py:291-339 | in every run of any number of contexts and outsiders, a running body holds the file lock and is the only one |
| `FileLockRuns.ReleasedExactlyOnce` | backend/app/repo_merge_lock.py:302-339 | a context wins at most once and never releases more than it won; once thread, coroutine and release job are over it has released exactly what it won and holds nothing |
| `FileLockRuns.ReleaseIsOwn` | backend/app/repo_merge_lock.py:302-339 | every release finds the file held by the releasing context and frees it |
| `FileLockRuns.HolderReleases` | backend/app/repo_merge_lock.py:302-339 | in every state that keeps the invariant, whoever holds the file frees it by at most four steps of its own |
| `FileLockRuns.OneMoreMiss` | backend/app/repo_merge_lock.py:308-335 | after the cancelled flag is set the polling thread misses at most one more attempt and then stops |
| `FileLockRuns.OneReleaser` | backend/app/repo_merge_lock.py:308-339 | the thread undoes its win only when the coroutine is over and has no release job, and a release job exists only for a thread that returned |
| `FileLockProgress.TryTakesFreeFileIff` | backend/app/repo_merge_lock.py:227-241 | in every run an attempt takes the file if nobody holds it, and otherwise misses and leaves the holder alone |
| `FileLockProgress.OutsiderGoesFirst` | backend/app/repo_merge_lock.py:227-241 | an outside process that has taken the free file makes the next attempt miss, and its drop frees the file again |
| `FileLockProgress.FreeFileReachesBody` | backend/app/repo_merge_lock.py:302-337 | in every state that keeps the invariant, a context that waits uncancelled while the file is free, or its own already, reaches its body by at most five steps of its own, each possible at its turn, and holds the file there |
| `FileLockProgress.OpenedReachesBody` | backend/app/repo_merge_lock.py:291-337 | in every run, a context that is opened while the file is free reaches its body in four steps |
| `FileLockProgress.FailureEndsContext` | backend/app/repo_merge_lock.py:227-252 | in every run, a wait that is out of time or a `flock` that fails for good ends the context without a body and without a win |
| `FileLockProgress.CancelEndsWait` | backend/app/repo_merge_lock.py:321-335 | in every run, a cancelled wait is over at the handler's turn, and leaves a release behind exactly if the thread had won and returned |
| `FileLockProgress.EveryContextSettles` | backend/app/repo_merge_lock.py:302-339 | every context can come to its end by at most nine steps of its own, and then does not hold the file |
| `FileLock.StepKeepsContext` | backend/app/repo_merge_lock.py:302-339 | every step of thread, coroutine and release job keeps the agreement of program counters, flags, wins and releases |
| `FileLockContext.MergeLock.EnterGuard` | backend/app/repo_merge_lock.py:308-319 | the guard section of the thread: cancelled means undo, otherwise the lock counts as acquired |
| `FileLockContext.MergeLock.BodyHoldsFile` | backend/app/repo_merge_lock.py:321-339 | on the valid object, a context in its body or about to enter it holds the file |
| `FileLockContext.MergeLock.CheckAbort` | backend/app/repo_merge_lock.py:243-252 | between two attempts the cancelled flag, then the deadline, ends the polling |
| `FileLockContext.MergeLock.UndoInThread` | backend/app/repo_merge_lock.py:316-319 | a thread that saw the cancellation frees the file and raises |
| `FileLockContext.MergeLock.LeaveBody` | backend/app/repo_merge_lock.py:336-339 | the end of the body submits the release |
| `FileLockContext.MergeLock.Advance` | backend/app/repo_merge_lock.py:321-339 | the steps that move a program counter change no flag and no owner |
| `FileLockContext.MergeLock.HandleCancel` | backend/app/repo_merge_lock.py:321-335 | the cancellation handler takes the acquired flag over and submits the release exactly if it was set |
| `FileLockContext.MergeLock.TryFlock` | backend/app/repo_merge_lock.py:227-241 | one attempt of the thread takes the file if it is free |
| `FileLockContext.MergeLock.RunRelease` | backend/app/repo_merge_lock.py:330-339 | the release job frees the file of its own context |
| `Versions.ParseShow` | backend/app/upgrade.py:118-133 | every version has a text that the pattern reads back as that version |
| `Versions.MarkerRoundTrip` | backend/app/upgrade.py:92-115 | what `write_marker` puts into the file is read back as that version |
| `VersionSyntax.ParsesIff` | backend/app/upgrade.py:118-133 | a string is read as a version if and only if it is three numerals with dots between them, one of the three pre-release suffixes or none, and at most one line break; the version is what the numerals and the suffix say |
| `Versions.GtIsPep440` | backend/app/upgrade.py:118-142 | `_gt` on version texts is the order of the section "Summary of permitted suffixes and relative ordering" of PEP 440 |
| `Versions.GtIsStrictOrder` | backend/app/upgrade.py:136-142 | with `None` below everything, `_gt` is a strict order, total on the versions denoted |
| `Upgrade.DataDir.Migrate` | backend/app/upgrade.py:711-748 | the migration loop: which `apply` calls are made, which ids enter the ledger, and whether a critical one failed |
| `Upgrade.DataDir.Run` | backend/app/upgrade.py:707-828 | a duplicate id is refused without any change; otherwise seeding, loop and marker step leave exactly the specified directory and report |
| `Upgrade.AttemptsFresh` | backend/app/upgrade.py:719-721 | only ids that are not in the ledger are attempted |
| `Upgrade.AttemptsAll` | backend/app/upgrade.py:719-748 | every registered id that is not in the ledger is attempted, also after another one failed |
| `UpgradeHistory.LedgerIs` | backend/app/upgrade.py:711-748 | after any sequence of runs the ledger is its first contents plus the ids that succeeded or were given up on: it only grows |
| `UpgradeHistory.OnlyFailedCriticalsRunAgain` | backend/app/upgrade.py:719-748 | whatever the targets, registries and failures, an id runs again only after a failed critical attempt |
| `UpgradeHistory.AppliedAtMostOnce` | backend/app/upgrade.py:719-748 | each id is applied successfully at most once in a history |
| `UpgradeHistory.UnsettledIsRetried` | backend/app/upgrade.py:719-748 | an id not settled so far is attempted by the next run that registers it |
| `UpgradeHistory.MarkerIsHighWatermark` | backend/app/upgrade.py:809-828 | the marker is the maximum, in version order, of its first value and the targets of the runs without a critical failure |
| `UpgradeHistory.CleanRunIsComplete` | backend/app/upgrade.py:719-873 | after a run without a critical failure every registered id is in the ledger, `needs_upgrade` is false, and a repetition calls nothing and changes nothing |
| `UpgradeHistory.AdvanceMeansComplete` | backend/app/upgrade.py:809-828 | the marker moves only up, to the target, in runs after which every registered id is in the ledger |
| `UpgradeOutcome.NeededIffMarkerMoves` | backend/app/upgrade.py:847-873 | an upgrade is due if and only if a run without a critical failure would move the marker, which is if and only if there is none or it is before the target |
| `UpgradeOutcome.NeededIffNotReached` | backend/app/upgrade.py:809-873 | over every history, an upgrade to a version is due if and only if the first marker and the targets of all runs without a critical failure are absent or before it |
| `UpgradeOutcome.FateOfMigration` | backend/app/upgrade.py:719-748 | a migration is tried exactly if its id was not in the ledger, and is in the ledger afterwards exactly if it was before, succeeded, or was not critical |
| `UpgradeOutcome.OnlyRegisteredIds` | backend/app/upgrade.py:711-748 | no other id gets into the ledger |
| `UpgradeOutcome.OutcomeOfRun` | backend/app/upgrade.py:718-828 | a run is clean if and only if every pending critical migration succeeds; the marker is written if and only if the run is clean and the target newer, and is then the target |
| `UpgradeOutcome.BaseIs` | backend/app/upgrade.py:182-189 | without a ledger, a run starts from the registered ids that the marker has reached; without a marker, from none |
| `UpgradeOutcome.AppliesIff` | backend/app/upgrade.py:258-266 | the old gate passes a migration if and only if there is no marker, or the marker is before the migration and not before its `applies_after` |
| `UpgradeHistory.SeedingMatchesOldGateIff` | backend/app/upgrade.py:182-189 | after seeding from any marker the ledger passes the same migrations in the same order as `_applies`, if and only if `applies_after` holds none back |
| `UpgradeHistory.SeedingRunsHeldBackMigration` | backend/app/upgrade.py:182-189 | from marker 0.1.0, a migration 0.2.0 held back by `applies_after` 0.3.0 is run by the new gate and not by the old one |
| `UpgradeHistory.AttemptsFollowGate` | backend/app/upgrade.py:719-721 | a run calls `apply` for exactly the migrations its gate passes, in registry order |
| `UpgradeCrash.CrashesDoNotShow` | backend/app/upgrade.py:711-725 | with a crash allowed between any two writes, for idempotent migrations that do not fail, a completed run leaves the data that the pending migrations produce when each is applied once in order |
| `UpgradeCrash.WritesComplete` | backend/app/upgrade.py:719-725 | two writes per pending migration complete the run |
| `UpgradeOutcome.FirstRunCompletes` | backend/app/upgrade.py:711-725 | without a ledger, one more write seeds it: the run completes, with the ledger of an uninterrupted run |
| `UpgradeOutcome.CrashAppliesTwice` | backend/app/upgrade.py:721-725 | a crash between the effect of a migration and its ledger write makes the next run apply it to data that has its effect already |
| `UpgradeCrash.SameLedgerAsRun` | backend/app/upgrade.py:711-725 | the ledger so reached is the one `run_upgrade` leaves when nothing fails |
| `Broadcaster.EventBroadcaster.Publish` | backend/app/events.py:90-121 | every subscriber of the channel, in iteration order, gets the event pushed onto its bounded queue, with the flag carried along; the number reached is returned |
| `Broadcaster.EventBroadcaster.Subscribe` | backend/app/events.py:67-82 | a new empty queue of the configured size joins the channel, other channels are unchanged |
| `Broadcaster.EventBroadcaster.Unsubscribe` | backend/app/events.py:83-86 | the queue leaves the channel, and the channel goes with its last subscriber |
| `Bus.PublishIsFanOut` | backend/app/events.py:100-116 | in a run of the whole bus a publish leaves in the queues of its channel what the loop leaves in them |
| `Bus.SubscriberSeesFeed` | backend/app/events.py:67-121 | whatever the other subscribers do, what one of them sees is a run of a single feed, over the events published on its channel since it came |
| `Bus.EverySubscriberIsServed` | backend/app/events.py:67-121 | in every run of the bus each queue is a contiguous suffix, within the bound, of what was published on its channel since its subscription; all else was taken or lost, and each loss is announced |
| `Feeds.PublishAllAt` | backend/app/events.py:100-116 | each subscriber gets the event, flagged exactly when it or an earlier one was full |
| `Feeds.FlagWithoutLoss` | backend/app/events.py:107-107 | a subscriber whose queue was not full can receive the flag |
| `Feeds.QueueAlwaysSuffix` | backend/app/events.py:67-121 | in every run of publish and get, the queue is a contiguous suffix of what was published since the subscription, within the bound |
| `Feeds.LossIsAnnounced` | backend/app/events.py:100-116 | if an event newer than the last flagged frame taken was lost, the queue holds a flagged frame, newer than every lost event |
| `Feeds.DrainedKnowsItsLoss` | backend/app/events.py:100-116 | a subscriber that drained its queue and lost anything has taken a flagged frame newer than every loss |
| `FeedProgress.LosslessIff` | backend/app/events.py:100-116 | a subscriber gets every event in the order of publication if and only if at no publish its bounded queue was already at its bound |
| `FeedProgress.UnboundedIsLossless` | backend/app/events.py:100-116 | with a queue size of zero or less nothing is ever lost |
| `FeedProgress.PublishedQueue` | backend/app/events.py:100-116 | in every run, a publish at the bound drops the oldest frame and appends the event with the flag, and below it appends the event and drops nothing |
| `FeedProgress.TakesAll` | backend/app/events.py:67-88 | taking as often as frames are waiting takes them all, in order |
| `FeedProgress.PublishReaches` | backend/app/events.py:90-121 | in every run of the bus a publish makes the event the newest frame of every subscriber of its channel and leaves everybody else alone |
| `FeedProgress.JoinedGetsNext` | backend/app/events.py:67-121 | in every run, who joins has an empty queue, takes the next event of the channel, and is gone after leaving |
| `Operations.OpRegistry.Start` | backend/app/operations.py:94-103 | `start` records a running op as the newest entry, evicts the oldest until the cap holds, and publishes the op |
| `Operations.OpRegistry.Terminate` | backend/app/operations.py:113-133 | `_terminate` updates the op or makes one up, keeps the old detail when the new one is empty and the old result when none is given, moves it to the end and publishes it |
| `Operations.OpRegistry.GetOp` | backend/app/operations.py:135-147 | `get` answers for a known op, to its owner or to anyone if it has none |
| `Operations.RegistryHoldsTheLatest` | backend/app/operations.py:94-133 | after any history the entries are the most recently moved ops, ordered by last transition, each as last recorded |
| `Operations.StartRestoresCap` | backend/app/operations.py:94-103 | `start` restores the cap and evicts only the entries that moved longest ago |
| `Operations.TerminateKeepsCapIff` | backend/app/operations.py:113-133 | `_terminate` keeps the cap if and only if the op is known or the registry is not full |
| `Operations.UnknownOpBreaksCap` | backend/app/operations.py:113-133 | an op that was never started ends under a full cap of one: two entries |
| `OperationFields.StartFields` | backend/app/operations.py:94-103 | after any history, a started op is the newest entry and the last one published: running, with the user, kind, detail and time it was given and no result; what else is left was there before, all of it while there is room |
| `OperationFields.TerminateFields` | backend/app/operations.py:113-133 | after any history, a terminated op is the newest entry and the last one published: with the given state and time, the user and kind of the entry it replaces, the new detail unless that is empty and the new result unless there is none, else the old ones; empty fields if there was no entry |
| `OperationFields.EndKeepsOwner` | backend/app/operations.py:94-147 | an op that is started and then ended is shown to its user as ended, with its kind and its detail |
| `OperationFields.GetShowsOwnOps` | backend/app/operations.py:135-147 | after any history, a user is shown an op if and only if it is the entry of that id and is theirs or has no user |
| `OperationFields.EndedOpShownIff` | backend/app/operations.py:113-147 | after any history, an op that ends is shown to a user if and only if the entry it replaces was theirs or had no user, or there was no entry |
| `OperationFields.EvictedOpLosesItsUser` | backend/app/operations.py:113-147 | under a cap of one, an op that is evicted while it runs is shown to another user once it has ended |
| `OpSocket.OpenOpStream` | backend/app/api/ws.py:157-163 | on the shared bus and registry: a new empty queue joins the channel of the op, and the socket is then sent the registry's answer, if any |
| `OpSocket.DrainToSocket` | backend/app/api/ws.py:196-205 | the waiting frames are sent in order until the queue is empty or the socket refuses one |
| `OpStream.StreamConverges` | backend/app/api/ws.py:157-205 | however many frames were dropped, once the client has its snapshot and its queue is drained, the last frame it was sent is the latest recorded transition of its op |
| `OpStreamProgress.EveryClientCanDrain` | backend/app/api/ws.py:157-205 | after any history the client can subscribe, look at the registry and drain its queue without any further transition |
| `OpStreamProgress.DrainedSeesRegistry` | backend/app/api/ws.py:157-205 | in every run, once the client has drained, an op that the registry shows to its user is the last frame it was sent |
| `Descriptions.SplitMergeIff` | backend/app/models.py:107-140 | splitting a merged description gives back the right-stripped body and the stripped requirement, or none if empty, if and only if no line of the body strips to a marker |
| `Descriptions.DocumentedRoundTripIff` | backend/app/models.py:96-140 | the round trip as documented holds exactly for a right-stripped body without a marker line and a requirement that is absent, or stripped and not empty |
| `Descriptions.DocumentedRoundTripFails` | backend/app/models.py:96-140 | three inputs that do not come back: trailing whitespace, an empty requirement, a body that is a marker line |
| `Descriptions.FieldsComeBack` | backend/app/models.py:684-717 | two fields sent by a client, the body without a marker line, come back with their outer whitespace normalised as stated |
| `Descriptions.ReloadKeepsFields` | backend/app/models.py:684-717 | for every stored text, also with legacy or repeated markers or an empty requirement, dumping and loading keeps both fields |
| `Descriptions.ReloadIdempotent` | backend/app/models.py:684-717 | the loaded form of a dump is a normal form |
| `Descriptions.StripKeepsRequirement` | backend/app/models.py:124-140 | stripping a description changes neither whether it has a marker line nor its requirement |
| `WrittenTexts.SplitWithoutMarkerLine` | backend/app/models.py:124-140 | a text none of whose lines strips to one of the two markers is all body |
| `WrittenTexts.SplitAtMarkerLine` | backend/app/models.py:124-140 | otherwise the first such line, current or legacy, separates the right-stripped body from the stripped requirement, which is none if blank |
| `WrittenTexts.MergedText` | backend/app/models.py:107-121 | the stored text for two fields, spelled out for blank and non-blank ones |
| `WrittenTexts.StripIff` | backend/app/models.py:107-121 | stripping yields the one core without outer whitespace |
| `Descriptions.FlowTask.NormaliseDescription` | backend/app/models.py:684-702 | the validator folds a non-empty requirement into the description once, clears it, and refuses a leader summary with a human checkpoint |
| `RuntimePrompts.PromptKeepsRequirementIff` | backend/app/api/runs.py:810-820 | a prefixed prompt keeps the requirement of a task if and only if the prompt has no marker line, or the task is blank and the prompt has no requirement; a blank task takes that of the prompt |
| `WrittenTexts.PromptedText` | backend/app/api/runs.py:810-820 | the result is heading, introduction, prompt and stripped text, spelled out; of a blank text, heading, introduction and prompt, stripped on the right |
| `RuntimePrompts.InjectRuntimePrompt` | backend/app/api/runs.py:823-832 | every task is prefixed, none when the prompt is empty, and without a marker line in the prompt every requirement is kept |
| `Tags.FindIsLeftmost` | backend/app/api/openclaw_agents.py:104-105 | the search finds a tag if and only if there is one, and then the leftmost |
| `Tags.FindAfter` | backend/app/api/openclaw_agents.py:584-613 | a tag put after text without one is the leftmost match: no match straddles the splice |
| `WrittenTexts.TagIff` | backend/app/api/openclaw_agents.py:104-105 | a tag is the name in a comment with any whitespace on either side, and nothing else |
| `CustomSection.ReplaceSucceedsIff` | backend/app/api/openclaw_agents.py:594-606 | replacing succeeds exactly when some start tag is followed by some end tag |
| `WrittenTexts.ReplacedText` | backend/app/api/openclaw_agents.py:584-613 | for any file with a section, tags in any spelling: what is read is the stripped text between the tags, and replacing writes the text before, the plain start marker, the stripped content, the plain end marker and the text after |
| `WrittenTexts.SectionOrMissing` | backend/app/api/openclaw_agents.py:584-606 | every other file reads as empty, and replacing is refused |
| `CustomSection.ExtractReplace` | backend/app/api/openclaw_agents.py:584-613 | what is read after a replacement: the stripped content, cut before its first end tag |
| `CustomSection.GetPutIff` | backend/app/api/openclaw_agents.py:584-613 | get after put is the stripped content if and only if the content has no end tag |
| `CustomSection.PutPutIff` | backend/app/api/openclaw_agents.py:594-613 | put after put is the last put if and only if the first content has no end tag; the text before the section never changes |
| `CustomSection.EndTagBreaksLaws` | backend/app/api/openclaw_agents.py:584-613 | content that is an end tag is not read back, and a second put does not replace all of it |
| `CustomSection.PutGet` | backend/app/api/openclaw_agents.py:584-613 | putting back what was read keeps the section and the text on both sides, and repeating it changes nothing |
| `CustomSection.MergeReadsIff` | backend/app/integrations/openclaw_agent_source.py:288-316 | with common rules that hold no start tag, the redeployed file reads back the carried body if and only if that body has no end tag |
| `CustomSection.MergeKeepsSection` | backend/app/integrations/openclaw_agent_source.py:288-316 | redeploying such rules keeps a non-empty user section of any old file |
| `CustomSection.MergeMerge` | backend/app/integrations/openclaw_agent_source.py:288-316 | a second redeployment gives what redeploying on the original file gives |
| `WrittenTexts.MergedAgents` | backend/app/integrations/openclaw_agent_source.py:288-337 | redeployment is refused exactly for blank common rules; otherwise the file is the stripped rules and the section, which holds the old section, the pre-marker file under its introduction, or the default text if the one that applies is blank |
| `RunReview.StatusClasses` | backend/app/models.py:242-276 | the three classes of statuses cover all of them and are disjoint |
| `RunOutcome.ClassByValue` | backend/app/models.py:242-276 | which stored values are terminal and which are preserved over a restart |
| `RunOutcome.AllowedByValue` | backend/app/api/runs.py:155-170 | which stored values may be aborted and in which a merge may be decided |
| `RunOutcome.PostReviewIff` | backend/app/api/runs.py:856-869 | a review marker is honoured if and only if it is the stored value of a failed complaint, a failed or an aborted run |
| `RunStore.Runs.MergePending` | backend/app/api/runs.py:3307-3374 | the merge handler succeeds exactly for the owner, in a decidable status, on a pending agent, and then stores the decided row; refused, it stores nothing |
| `RunStore.Runs.DismissPendingMerge` | backend/app/api/runs.py:3396-3463 | the same for the dismiss handler |
| `RunStore.Runs.Abort` | backend/app/api/runs.py:1730-1761 | only a running, waiting or paused run is aborted; merges and markers go |
| `RunStore.Runs.SubmitComplaint` | backend/app/api/runs.py:3467-3512 | the complaint task starts exactly for a waiting run, a message that is not blank and no task in progress; a refused start puts the status back |
| `RunStore.Runs.SkipComplaint` | backend/app/api/runs.py:3516-3574 | the same without a message |
| `RunStore.Runs.SweepOrphanedRuns` | backend/app/main.py:31-62 | the loop orphans every listed run, counts them, and leaves the others alone |
| `RunStore.SweepReconciles` | backend/app/main.py:31-62 | after the sweep no run is active; active runs are orphaned with a finish time and nothing else changed, preserved and finished runs are untouched, and a second sweep changes nothing |
| `RunOutcome.DecisionResolves` | backend/app/api/runs.py:3333-3351 | an accepted decision takes exactly its agent off the list, preserves its worktree exactly if the merge failed, keeps the other preserved ids that are not blank, and changes nothing else while agents are left |
| `RunOutcome.LastDecisionFields` | backend/app/api/runs.py:3352-3374 | the last decision: the recorded terminal status takes effect; otherwise a run in review waits for a complaint, with conflicts exactly if this merge failed; otherwise status and finish time stay |
| `RunOutcome.AbortFields` | backend/app/api/runs.py:1746-1761 | the row of an aborted run, field by field; in any other status nothing changes |
| `RunOutcome.OrphanedIff` | backend/app/main.py:31-62 | a restart, and a drain that finds no task, orphans exactly the runs in an active status, with a finish time |
| `RunOutcome.PausedSurvivesRestart` | backend/app/api/runs.py:1892-1908 | a paused run survives a restart and is resumed after it; nothing else is resumed |
| `ComplaintTask.StepKeepsInv` | backend/app/scheduler/engine.py:755-877 | every step of a complaint task, from its creation over its terminal cleanup to its handlers, keeps the agreement of task and row: what the row says at each point, that nothing is left to merge, that a finished run has its finish time |
| `ComplaintTask.StuckIff` | backend/app/scheduler/engine.py:764-877 | a step leaves a run in processing without a task if and only if it is a cancel before the first step or inside a handler of such a run |
| `ComplaintTask.TaskEndsRun` | backend/app/scheduler/controller.py:5414-5432 | left alone, every task ends its run in at most three steps: reverted if it was drained, terminal otherwise |
| `RunOutcome.ComplaintPhaseEnds` | backend/app/scheduler/controller.py:5414-5432 | a complaint is taken up exactly for a run that waits for one and has no task; left alone, its phase stores the post-complaint status and a finish time, and the cleanup changes nothing |
| `RunOutcome.InterruptedPhase` | backend/app/scheduler/engine.py:767-853 | in the phase or its cleanup, an exception ends the run as a failed complaint, a cancel as aborted, and a drain puts it back to waiting without a finish time |
| `RunOutcome.SecondCancelKeepsRow` | backend/app/scheduler/engine.py:755-877 | a second cancel, while a handler is at work, ends the task and leaves the row as it was |
| `RunHistory.NoStuckComplaintIff` | backend/app/api/runs.py:3478-3574 | in a sequence of actions a run is at some point in processing without a task if and only if such a cancel comes |
| `RunHistory.EarlyCancelStrandsRun` | backend/app/api/runs.py:3489-3512 | a cancel right after the submit, before the task has run, leaves the run in processing |
| `RunHistory.TerminalIsFinalIff` | backend/app/scheduler/engine.py:767-790 | a terminal run stays terminal and keeps its finish time throughout a sequence of actions if and only if no drain handler comes to its write |
| `RunHistory.DrainRevertsCompletedRun` | backend/app/scheduler/controller.py:5414-5432 | a completed run whose cleanup a drain cancels waits for a complaint again and has lost its finish time |
| `RunHistory.CompletedStaysIff` | backend/app/scheduler/engine.py:790-877 | the row of a completed run never changes if and only if no handler of its task comes to its write |
| `RunHistory.CleanupOverwritesCompletedRun` | backend/app/scheduler/engine.py:790-853 | a completed run whose cleanup raises is stored as a failed complaint, one whose cleanup is cancelled as aborted |
| `RunHistory.SettledIsFinal` | backend/app/api/runs.py:1746-1761 | a terminal run without a task stays terminal and keeps its finish time under every sequence of actions, and can change at all only if it is failed or aborted with merges left |
| `RunHistory.AbortIsForever` | backend/app/api/runs.py:1746-1761 | an aborted run has no merges and no markers left, and no sequence of actions changes it any more |
| `RunHistory.PendingAreUndecided` | backend/app/api/runs.py:3424-3432 | the pending agents are those not yet decided; no agent is decided twice |
| `RunHistory.ReviewEnds` | backend/app/api/runs.py:3352-3374 | deciding the last pending merge of a run in review ends in the recorded terminal status if there is one, and otherwise waits for a complaint with the status set by that last decision; the review marker is gone |
| `RunHistory.ConflictsAreTheLastDecision` | backend/app/api/runs.py:3360-3368 | after an undisturbed complaint phase the run is completed with conflicts exactly when the last decision was a failed merge |
| `RunHistory.EarlierFailureIsForgotten` | backend/app/api/runs.py:3360-3368 | a review of two agents, the first merge failed and the second done, ends completed without conflicts |
| `RunHistory.PreservedIff` | backend/app/api/runs.py:872-896 | over any decisions an id is in the preserved set exactly when the last decision concerning it was a failed merge, and initially if none concerns it |
| `RunHistory.PreservedIsLastFailedMerge` | backend/app/api/runs.py:3337-3351 | on runs: a decided agent whose id has no surrounding whitespace is preserved exactly when its merge failed |
| `RunHistory.FailedMergeIsPreservedIff` | backend/app/api/runs.py:872-896 | a failed merge preserves the agent if and only if its id is not empty and has no surrounding whitespace |
| `ChatRetry.ChatCompletion` | backend/app/api/openclaw_agents.py:3369-3509 | against any sequence of command outcomes the loop ends as specified, after at most the connection attempts plus four spawns, or plus one without the unknown-agent retries |
| `ChatHistory.CallHasHistory` | backend/app/api/openclaw_agents.py:3369-3525 | every call has a history of retries: each for the first cause that the failed command showed and that has retries left (one, three, the attempts less one); the call ends at the first turn that shows none, with the payload, bad output, timeout, cancellation or failure that this turn is; spawns and time slept are those of the history |
| `ChatHistory.HistoryIsUnique` | backend/app/api/openclaw_agents.py:3369-3525 | the outcomes of the commands admit exactly one such history |
| `ChatRetry.EndingExplained` | backend/app/api/openclaw_agents.py:3369-3509 | however failures mix, every spawn but the last is paid for by one of the three budgets, the time slept depends on the budgets alone, and the ending is the reaction to the last outcome |
| `ChatRetry.PayloadExplained` | backend/app/api/openclaw_agents.py:3369-3509 | a payload comes from the first command that succeeds; all before it failed |
| `ChatRetry.FailureExplained` | backend/app/api/openclaw_agents.py:3442-3509 | a failure is reported only when no budget is left for what the last run of the command said |
| `ChatRetry.ShippedBounds` | backend/app/api/openclaw_agents.py:3489-3509 | with the shipped attempts and delays a call spawns at most seven commands and sleeps at most 5.8 seconds |
| `ChatRetry.BoundIsReached` | backend/app/api/openclaw_agents.py:3369-3509 | the bound on spawns is attained for every number of attempts |
| `CreateCancelRuns.TablesNameTheLatest` | backend/app/api/openclaw_agents.py:158-166 | over all overlapping creates and cancels, the event and task entries are those of the create registered last while it is alive, and empty otherwise: no older create removes a newer entry |
| `CreateCancelRuns.CancelReachesTheLatest` | backend/app/api/openclaw_agents.py:222-256 | after a cancel request the running create registered last cannot pass its last cancellation check, in any continuation, until a newer create registers |
| `CreateCancelRuns.PassesCheckIff` | backend/app/api/openclaw_agents.py:247-256 | in every run a bootstrap passes its last check if and only if the event of the running create registered last, its own or not, is not set |
| `CreateCancelRuns.NewerCreateLetsCancelledOnePass` | backend/app/api/openclaw_agents.py:218-256 | a run in which a cancelled bootstrap passes its check because a newer create has registered |
| `CreateCancelRuns.EndOfBootstrapIsClean` | backend/app/api/openclaw_agents.py:1759-1766 | in any run, the end of the bootstrap registered last leaves no event, reservation or flag |
| `CreateCancelSteps.UndisturbedCreateCompletes` | backend/app/api/openclaw_agents.py:1652-1786 | in every run, a create of a free id can register, pass its check, commit and end, and then no table has an entry of the id |
| `CreateCancelSteps.RegisteredPassesIff` | backend/app/api/openclaw_agents.py:204-209 | in every run, a create that registers passes its check at once if and only if no cancel was asked for before |
| `CreateCancelSteps.EarlyCancelIsKept` | backend/app/api/openclaw_agents.py:204-256 | a cancel that came before the registration is kept: the create cannot pass its check in any continuation until a newer one registers |
| `CreateCancelSteps.NobodyIsCancelledUnasked` | backend/app/api/openclaw_agents.py:222-256 | in every run without a cancel request no registration is aborted, every bootstrap passes its check, and no create is refused for a cancel |
| `CreateCancelSteps.EntersIff` | backend/app/api/openclaw_agents.py:1652-1659 | a create is refused at once exactly if a cancel is asked for, and otherwise comes to the reservation |
| `CreateCancelSteps.ReservesIff` | backend/app/services/openclaw_agents.py:2199-2213 | at the reservation a create is refused exactly if the id is taken; a stale cancel flag goes in either case |
| `CreateCancelSteps.FailedRegistrationFreesId` | backend/app/services/openclaw_agents.py:2211-2226 | after a registration that failed or was cancelled the next create gets the id |
| `CreateCancelSteps.FailedBootstrapFreesId` | backend/app/api/openclaw_agents.py:1720-1766 | in every run, the bootstrap registered last, failing before its check or after it, is cleaned up and leaves no entry of any table |
| `CreateCancelSteps.CancelComesToItsWait` | backend/app/api/openclaw_agents.py:1814-1836 | from every state, a successful purge and two probes bring a cancel to its return with the id free, or to the wait for the tracked task if that is alive; the event of a running create is then set |
| `CreateCancelSteps.ArtifactRestartsCount` | backend/app/api/openclaw_agents.py:324-360 | what a live bootstrap writes between two probes starts the count again, and at the deadline ends the cancel with an error, its flags still up |
| `CreateCancelSteps.CancelOfLiveCreateReturns` | backend/app/api/openclaw_agents.py:1790-1836 | in every run, a cancel of the live bootstrap registered last, which notices, fails and cleans up, returns, and neither artifact, reservation, flag nor entry of the id is left |
| `CreateCancelSteps.WindowEnds` | backend/app/api/openclaw_agents.py:363-401 | a cancel that waited in vain returns at the end of its window and frees the id although the bootstrap goes on |
| `CreateCancelSteps.ExpiryIff` | backend/app/api/openclaw_agents.py:237-244 | the request flag expires exactly while no create has an event; the cancel flag of the service does not |
| `CreateCancelRuns.ExclusiveIff` | backend/app/api/openclaw_agents.py:363-401 | from a state in which exactly the create in progress holds the reservation, a step keeps that if and only if it is not a cancel that returns while the reservation is held, nor a request lost inside `commit_agent` |
| `CreateCancelRuns.OneCreateAtATimeIff` | backend/app/api/openclaw_agents.py:1652-1786 | throughout a run at most one create is in progress and it holds the reservation, if and only if no such step is taken |
| `CreateCancelRuns.LostRequestLeaksReservation` | backend/app/services/openclaw_agents.py:2211-2226 | a create whose request is cancelled inside `commit_agent` keeps the reservation although nothing is in progress |
| `CreateCancelRuns.LeakBlocksTheId` | backend/app/services/openclaw_agents.py:2211-2226 | until a cancel of the id returns, such a reservation stays and no create of the id gets anywhere |
| `CreateCancelBarred.RaisedCancelBarsId` | backend/app/api/openclaw_agents.py:340-352 | a run in which a cancel ends with an error at its deadline; the request expires, the cancel flag of the service does not, and the next create is refused |
| `CreateCancelBarred.BarredUntilNextCancel` | backend/app/api/openclaw_agents.py:1652-1659 | once the flag is up and no create or cancel is left to take it down, every later create of the id is refused in every run until another cancel is asked for |
| `CreateCancelBarred.NeverBarredIff` | backend/app/api/openclaw_agents.py:1814-1836 | a run comes to that point if and only if, with the flag up, the last open cancel raises or loses its request while every create is at rest, or the last create fails or loses its request inside its registration after every cancel has closed |
| `CreateCancelBarred.NextCancelLiftsBar` | backend/app/api/openclaw_agents.py:1814-1836 | another cancel that purges the id and finds nothing twice returns and frees it |
| `CreateCancelOps.CancelOutcomeIff` | backend/app/api/openclaw_agents.py:1814-1834 | while no other create takes the id, at the return of a cancel that met a running op the op is over, and is a success if and only if the create committed in between; one that had not passed its last check when the cancel came has failed |
| `CreateCancelOps.PurgedCreateIsReportedAsSuccess` | backend/app/api/openclaw_agents.py:1759-1775 | a run in which the op is a success and the cancel has returned with nothing of the agent left |
| `CreateCancelRuns.CancelLeavesNothingIff` | backend/app/api/openclaw_agents.py:1790-1836 | while no other create takes the id, the return of the cancel leaves no artifact, reservation, event or flag if and only if the bootstrap did not outlive the wait window and its cleanup left no artifact that no later purge removed |
| `CreateCancelRuns.FailedCleanupLeavesArtifact` | backend/app/api/openclaw_agents.py:292-303 | a run in which the cleanup fails and the cancel returns with the artifact in place |
| `CreateCancelRuns.LateCreateLosesReservation` | backend/app/api/openclaw_agents.py:363-401 | a run in which another create does take the id and the returning cancel releases its reservation |
| `CreateTables.Registry.RegisterCancellation` | backend/app/api/openclaw_agents.py:204-209 | a new event replaces the entry, and is set at once if a cancel was requested |
| `CreateTables.Registry.UnregisterCancellation` | backend/app/api/openclaw_agents.py:212-215 | only the own event is removed |
| `CreateTables.Registry.IsCancelled` | backend/app/api/openclaw_agents.py:247-249 | the answer is whether the event in the table is set |
| `CreateTables.Registry.TrackTask` | backend/app/api/openclaw_agents.py:158-160 | the task entry is replaced |
| `CreateTables.Registry.RequestCancellation` | backend/app/api/openclaw_agents.py:222-230 | both flags are set, and the event of a running create if there is one |
| `CreateTables.Registry.UntrackTask` | backend/app/api/openclaw_agents.py:158-166 | the done-callback removes only its own task |
| `CreateTables.Registry.FinishBootstrap` | backend/app/api/openclaw_agents.py:1759-1766 | the end of the bootstrap releases the reservation, both flags and its own event; other ids keep theirs |
| `CreateTables.Registry.EndCancel` | backend/app/api/openclaw_agents.py:395-401 | the end of a cancel releases the reservation and both flags, and says whether it was held |
| `CreateTables.WaitUntilCleanupVisible` | backend/app/api/openclaw_agents.py:324-360 | the wait returns at the first two absent probes in a row, otherwise raises at the deadline, after at most 61 probes |

## Left out

Assumptions and weaker statements:

- FileLockRuns.ReleasedExactlyOnce: speaks of a context whose release job is over; it assumes that a release job, once submitted, runs (`repo_merge_lock.py:339` awaits a thread that a second cancellation could keep from starting).
- UpgradeCrash.CrashesDoNotShow: needs idempotent migrations that do not fail, and a ledger and marker whose single writes are atomic; a migration interrupted inside its own effect is one that has to be idempotent from any prefix, which the model does not split further.
- UpgradeHistory.LedgerIs: ledger and marker writes succeed and the ledger is readable; `read_applied_migrations` answers the empty set for a corrupt file and everything runs again.
- Feeds.LossIsAnnounced: one direction only, since `Feeds.FlagWithoutLoss` shows that the other fails.
- OpStream.StreamConverges: a transition is recorded and published in one step of the event loop; the socket accepts every frame.
- CreateCancelRuns.CancelLeavesNothingIff: supposes that no other create takes the id before the cancel returns; `CreateCancelRuns.LateCreateLosesReservation` shows what happens otherwise.
- RunStore.Runs.MergePending: `ok` is what the merge command answers; the command, the tail cleanup, events and responses are not modelled.
- RunHistory.PreservedIff: the stored list of ids is a set; its order is written sorted and never read.
- ChatRetry.ChatCompletion: what a failing command's text looks like (scope approval, unknown agent, transient) is an input; several may apply at once. Delays are in milliseconds.
- Tags.FindIsLeftmost: the pattern `<!--\s*NAME\s*-->` is modelled by what it matches, not by a regular-expression engine.
- Versions.ParseShow: `\d` is the ASCII digits; the pattern also accepts digits of other scripts.

Modelled on values instead of in place:

- `asyncio.Lock` objects are values in a map from lock identities; identity, aliasing and the deque are kept, the object's own methods are functions on the map.
- The row of a run is a record that a handler copies, changes and stores at the points where the source calls `run_update`; aliasing between the copy and the stored row is not modelled.
- The create and cancel handlers are steps of `CreateCancel` over one id; their table operations are the methods of `CreateTables.Registry`, keyed by id. A step is the code between two awaits.
- Creates that the agent store and the import make by calling the service directly are not among the creates of an id; they skip the check of the endpoint.
- The op of a create is one per id; the cancel looks it up as the user who started the create.
- The handlers' registration step (`commit_agent`) may write artifacts, abort or fail at any time; what it checks besides the reservation and the cancel flag is left open.
- `_REQUESTED_AGENT_CREATE_CANCELLATION_TTL_SEC`: the expiry may come at any time, which includes 120 seconds.

Not modelled:

- `LockManager` beyond calling acquire and release: its logging and the process-wide singleton.
- The Windows branch of the file lock (`msvcrt`), path builders and merge command builders.
- The steps of `run_upgrade` before the migration loop and after it (secrets, seeding, deploys, schema, agent refresh); their failures do not block the marker.
- Two HTTP handlers interleaving on stale copies of one run row: each handler is one step.
- The scheduler's own moves of a run, except that a resumed run reports `running`, that a drain orphans an active run that nothing drives, and the complaint task, which works on the row as stored. What the task does before its final row is one stretch of work.
- The worker that skips stale complaints (`engine.py:450-532`): it runs the complaint phase without a registered task, so runs it is working on are not covered.
- `run.inputs` entries other than the three markers, and list entries that are not strings.
- Git, tmux, subprocesses, sockets, HTTP, notifications, logging, the frontend, profiles, Hermes and custom agents.
- Flow modes, cron expressions, de-duplicators and Flow import and export: single-branch facts or decided by the storage.
- The defaults that other validators of `models.py` fill in (`_resolve_defaults`).
- Batch import cancellation (`_CANCELLED_IMPORT_BATCHES`): one set with add and discard.
