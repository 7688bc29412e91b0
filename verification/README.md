# NyaMedia: a verified model of its scans

NyaMedia turns change events, cron schedules and manual requests into scans of cloud or
local trees. A scan refreshes an index of entries and reconciles a directory of `.strm`
files and sidecars with it. This project models the state machines and path algorithms of
that work in Dafny and proves what they promise. `dafny verify dfyconfig.toml` checks all
of it.

## The parts

- `QueueRaces`: the statements of `enqueueScan`, which run without a transaction or a lock
  beside other calls, the drain and deletions of libraries. Main result: in every
  interleaving, whatever the paths, an accepted request stays covered by a pending row until
  such a row is taken, the pattern of a delete strays onto it, or a delete runs whose own
  recursive row was lost after its insertion (`RequestStaysCovered`).
- `ScanQueue`: the table under it, into which requests are merged, with the SQL conditions
  as they are written, unescaped `LIKE` patterns included; `enqueueScan` as one step, which
  keeps the recursive rows an antichain; and where merging loses a scan or an option.
- `Dispatcher`: the drain loop, its two slots, the lock per provider, the wake channel and
  the deferred calls of finishing scans, as one machine whose steps interleave freely, and
  a `Worker` object whose methods are traces of it.
- `Tasks`: the life of one scan task under runners, cancellers and failure handlers that
  write back stale copies through a compare-and-set, and under stops of the service.
- `Watch`: debounce timers, the wait group and the restart of a generation of watchers.
- `Credentials`: tokens bound to the application they were issued for, for baiduopen and
  123pan providers, with token states that several runtimes share. The set `issued` is
  history: it records for which application the cloud handed out a token.
- `EntryIndex`: the walk that skips directories holding a `.ignore` file, the upserts
  stamped with the time of the scan, and the sweep.
- `Outputs`: the files a scan writes and deletes below a mount's target, and below the
  targets of all mounts of a library (`ScanLibrary`).
- `Scan`: both of the above in sequence, from the remote tree to the files (`ScanPath`).
- `Paths`, `Mounts`, `Like`, `Percent`, `Strings`: path normalisation and order, mount
  translation, `LIKE` with an escape character (section 8.5 of ISO/IEC 9075-2), percent
  encoding (section 2.1 of RFC 3986), and the string functions under them. The database is
  PostgreSQL, whose `LIKE` tells case apart and takes the backslash for its escape character
  also where a query names none, as the queries of the queue do.
- `NodeCache`: path resolution of the 123pan provider through its memory and persistent
  caches. A trip is what resolution visits and makes known; the methods are proved to make
  those trips, for every path.
- `NodeAgreement`, `NodeDifferences`: those trips against the plain walk from the remote
  root, from the tree and the paths known at the start alone: when they agree, where they
  end, when that is within the provider root, and trees on which they differ.
- `Paging`: keyset paging and the client that follows `next_cursor`.
- `Cron`: the field parser with its 64-bit loop counter, the match test and the
  once-a-minute update.

Objects whose fields the program updates in place are classes here (`Repository`,
`Worker`, `Timers`, `ProviderAuth`, `EntryRepository`, `MountScan`, `Provider`,
`ScheduleRepository`). Each method is proved against the step function of its machine or
against a function of the old state, and what holds over whole runs is proved about those
functions. One SQL statement or transaction is one step. Times are ordered values, ids and
answers of the cloud are parameters.
`Scan.LoneFileScope` and `NodeDifferences.TreeIs` exhibit inputs that meet the conditions of the
scan and of path resolution.

## Where a promise fails, and exactly when

- The queue does not escape `LIKE` metacharacters. Its pattern means "below this path" for
  every string if and only if the path holds none of them (`Like.SubtreePatternExactIff`).
  A request can be absorbed by a row that does not cover it
  (`ScanQueue.RequestLostToUnderscore`), and is covered exactly in the other cases
  (`ScanQueue.EnqueueCoversIff`); and a recursive request can destroy accepted ones outside
  its subtree (`ScanQueue.RequestDestroyedByUnderscore`), and keeps all of them exactly when
  each row it wrongly selects is covered by one it does not (`ScanQueue.EnqueueKeepsCoverIff`).
  Over runs, `QueueRaces.RequestStaysCovered` names the delete that does so.
- The delete of `enqueueScan` is a statement of its own. It loses nothing if and only if a
  recursive row at or above the path is pending when it runs, or there is nothing to delete
  (`ScanQueue.DeleteCoveredLosslessIff`, `ScanQueue.OrphanedDeleteLoses`). Only a removal in
  between, or a pattern that strays, can bring that about (`QueueRaces.OrphanWasDisturbed`),
  and then an accepted request is lost (`QueueRaces.AcceptedRequestLost`).
- Touching a covering row drops a request to overwrite (`ScanQueue.OverwriteKeptIff`,
  `ScanQueue.OverwriteLost`), and so do later requests without the option that merge with
  its row or delete it (`ScanQueue.OverwriteStaysIff`).
- The sweep is exact if and only if no row that the tree no longer shows already carries
  the stamp, which has one-second resolution (`EntryIndex.ScanIsExactIff`,
  `EntryIndex.StaleStampSurvives`).
- A scan that starts below an ignored directory indexes what a scan from above would hide
  (`EntryIndex.PartialScanAgreesIff`, `EntryIndex.PartialScanShowsIgnored`).
- Normalising a path is idempotent if and only if the result does not end in a blank
  (`Paths.NormalizeIdempotentIff`, `Paths.NormalizeNotIdempotent`). For the same reason
  translating a target path to its source path and back is not the identity if the path ends
  in such a blank, or if the mount's source does and is not read as a path at or above itself
  (`Mounts.TranslationLandsIff`, `Mounts.MountRoundTripIff`, `Mounts.BlankLostInTranslation`,
  `Mounts.BlankSourceIsOutside`).
- The baiduopen prefix test differs from the other two for the root
  (`Paths.BaiduPrefixAgreesIff`, `Paths.BaiduRootIsEmpty`).
- Of the mounts that cover a path the one with the longest spelling is taken, which is the
  deepest one if it does not end in a blank (`Mounts.LongestIsDeepest`,
  `Mounts.BlankRootChosen`).
- 123pan path resolution differs from the plain walk in three cases. A provider root that is
  a file fails to resolve once, is cached by that failure and is then taken for the root
  (`NodeAgreement.RootAgreesIff`, `NodeAgreement.DirAgreesIff`,
  `NodeDifferences.FileRootResolvedTwice`). A root below "/" that is not known yet cannot be
  resolved as a node (`NodeAgreement.NodeAgreesIff`, `NodeDifferences.ColdRootNotFound`). A
  path with a segment that ends in a blank, which no node has, resolves once the caches know
  the paths its names lead to without their blanks: to the node of the trimmed path when what
  is left of each name is a name (`NodeAgreement.OrdinaryPassesIff`,
  `NodeDifferences.BlankNameReachedThroughCache`); and since blanks alone and one dot before
  them lead nowhere and two dots lead up, to a directory above it or beside it, outside the
  provider root even (`NodeAgreement.DirLandsWithinIff`, `NodeDifferences.DotsLeaveRoot`). The
  three lemmas on agreement say exactly when each case arises, and that there is no other.
- Tokens of one application can be stored in another order than they were issued in: those
  of a refresh stay if and only if no others are written after them
  (`Credentials.RefreshStoredIff`, `Credentials.OlderTokensStored`).
- A cron step near the largest 64-bit integer wraps the loop counter around. The set that is
  built is what the field denotes if and only if no item of it does that
  (`Cron.BuildsWhatItDenotesIff`, `Cron.StepFieldSafeIff`, `Cron.LargestStepRunsAtMinute57`).
- A schedule runs again for a minute it has run for if and only if it ran for another one in
  between (`Cron.MarkedAgainIff`), which takes a clock that goes back
  (`Cron.AtMostOncePerMinute`, `Cron.ClockGoingBackMarksTwice`).
- Two media files share one `.strm` file if and only if they lie in one directory under
  names that differ at most in the extension (`Outputs.SharedStreamFileIff`).

## Model

| member | source | states |
|---|---|---|
| `QueueRaces.RequestStaysCovered` | internal/app/scan_queue.go:224-256 | for any paths, in every interleaving of the single statements of enqueueScan with those of other calls, dequeues, discards and cascades: from the write by which a call takes effect a pending row of its group covers the request until a removal takes such a row; the only other ways to lose it are a delete whose pattern strays onto a covering row, and the delete of a call at or above its path that lost its own recursive row between its upsert and that delete |
| `QueueRaces.CoverStays` | internal/app/scan_queue.go:224-256 | a request covered at some moment, whoever asked for it, stays covered until a removal takes a covering row, the pattern of a delete strays onto one, or a DeleteCovered at or above its path runs with no recursive row pending there |
| `QueueRaces.OrphanWasInterrupted` | internal/app/scan_queue.go:246-254 | a delete that runs without its recursive row belongs to a call whose row lost its cover between its upsert and that delete |
| `QueueRaces.OrphanWasDisturbed` | internal/app/scan_queue.go:246-254 | calls alone never orphan the delete of another, if no pattern strays: back from one that is orphaned, a removal or a straying delete took the recursive row of a call at or above the path that had yet to run its delete |
| `QueueRaces.AcceptedRequestLost` | internal/app/scan_queue.go:246-254 | a run of eight steps in which that happens and an accepted request is deleted without having been taken |
| `QueueRaces.AcceptedHasWritten` | internal/app/scan_queue.go:229-256 | a call that returned without an error has written, for the request it came with |
| `QueueRaces.WriteCovers` | internal/app/scan_queue.go:229-251 | a write that takes effect leaves a row that covers the request |
| `QueueRaces.PlainWriteTakesEffect` | internal/app/scan_queue.go:229-251 | an upsert takes effect, and so does the touch of a row whose path holds no LIKE metacharacter |
| `QueueRaces.PlainNeverStrays` | internal/storage/scan_queue_repository.go:122-141 | the delete of a call whose path holds no metacharacter picks no row outside its subtree |
| `QueueRaces.DeleteKeepsCover` | internal/storage/scan_queue_repository.go:122-141 | a delete keeps each covered request covered, unless it strays onto a covering row or no recursive row is left at or above its path |
| `QueueRaces.StepKeepsCover` | internal/app/scan_queue.go:224-256 | each statement keeps each covered request covered, but for those three kinds of loss |
| `QueueRaces.RunKeepsSound` | internal/storage/scan_queue_repository.go:46-141 | in every reachable state merge keys are unique, and a call about to touch holds the id of a row that the query selects for its request, or one that is gone |
| `QueueRaces.StepKeepsSound` | internal/storage/scan_queue_repository.go:46-141 | each statement keeps that |
| `ScanQueue.RequestStaysCovered` | internal/app/scan_queue.go:224-256 | with enqueueScan taken as one step: in every run of enqueue, dequeue, discard and cascade steps, from the moment a request is accepted a pending row of its group covers it (same path and mode, or recursive at or above the path) until some step removes a covering row |
| `ScanQueue.RunKeepsInv` | internal/storage/scan_queue_repository.go:46-141 | in every reachable state the merge key is unique and no recursive row lies at or above another row of its group |
| `ScanQueue.StepKeepsInv` | internal/storage/scan_queue_repository.go:46-141 | each step keeps the merge key unique and the recursive rows an antichain |
| `ScanQueue.EnqueueKeepsInv` | internal/app/scan_queue.go:224-256 | enqueueScan, taken as one step, keeps that invariant in both branches |
| `ScanQueue.StepKeepsCover` | internal/app/scan_queue.go:224-256 | a step leaves a covered request covered unless it is a removal of a row covering it |
| `ScanQueue.EnqueueCoversIff` | internal/app/scan_queue.go:224-256 | with any paths, metacharacters included: the request is covered on return if and only if it was not absorbed, or some row really covers it |
| `ScanQueue.RequestLostToUnderscore` | internal/storage/scan_queue_repository.go:81-102 | an underscore in a queued path makes the unescaped pattern absorb a request that no row covers |
| `ScanQueue.EnqueueKeepsCoverIff` | internal/app/scan_queue.go:229-254 | with any rooted paths, metacharacters included: whatever some row covered before enqueueScan some row covers after it, if and only if each row outside the subtree of a recursive request that is not absorbed, which the pattern selects for deletion, is covered by a row it does not select |
| `ScanQueue.RequestDestroyedByUnderscore` | internal/storage/scan_queue_repository.go:122-141 | a recursive request for a path with an underscore deletes an accepted request elsewhere |
| `ScanQueue.DeleteCoveredLosslessIff` | internal/storage/scan_queue_repository.go:122-141 | in any table, as it stands when the statement runs: DeleteCovered loses no request if and only if a recursive row of the group at or above the path is pending or no row of the group lies at or below the path |
| `ScanQueue.OrphanedDeleteLoses` | internal/storage/scan_queue_repository.go:122-141 | with its recursive row gone the statement deletes a row that nothing else covers |
| `ScanQueue.DeletionIsLosslessIff` | internal/storage/scan_queue_repository.go:122-141 | deleting any set of rows loses no request if and only if each of them is covered by a row that stays |
| `ScanQueue.OverwriteKeptIff` | internal/storage/scan_queue_repository.go:104-120 | when enqueueScan returns, a request for overwriting is on a covering row that overwrites if and only if it was not absorbed by a row that does not |
| `ScanQueue.OverwriteLost` | internal/storage/scan_queue_repository.go:104-120 | a request to overwrite that is absorbed by a row without the option is covered, and overwritten by nobody |
| `ScanQueue.OverwriteStaysIff` | internal/app/scan_queue.go:224-256 | over a run a request that is to be overwritten stays so if and only if no step in between drops its last overwriting row: by removing it, by a merge without the option, or by a recursive request at or above it without the option |
| `ScanQueue.StepKeepsOverwriteIff` | internal/app/scan_queue.go:224-256 | the same for one step, with the exact condition on the step |
| `ScanQueue.PlacedOverwritesIff` | internal/storage/scan_queue_repository.go:46-79 | after a request that is not absorbed some row overwrites a path if and only if the new row does, or a row that the new one neither merges with nor deletes |
| `ScanQueue.CoveringRowIsUnique` | internal/storage/scan_queue_repository.go:81-102 | a request has at most one row the covering query selects, so ordering by path length decides nothing |
| `ScanQueue.CoveringClauseExact` | internal/storage/scan_queue_repository.go:81-102 | on plain paths the SQL condition selects exactly the recursive rows of the group at or above the path |
| `ScanQueue.CoveredClauseExact` | internal/storage/scan_queue_repository.go:122-141 | on plain paths the SQL condition selects exactly the rows of the group at or below the path, but not the recursive row at the path |
| `ScanQueue.CoversFormChain` | internal/storage/scan_queue_repository.go:81-102 | two ancestors of one path are comparable |
| `ScanQueue.Repository.EnqueueScan` | internal/app/scan_queue.go:224-256 | the new table is the merge function of the old table, the normalised request and a row the covering query may return; some row records the request: it has its event, and either it covers the request and is due as before, or has its key and is due no earlier than asked |
| `ScanQueue.Repository.FindCoveringRecursive` | internal/storage/scan_queue_repository.go:81-102 | returns a longest selected row, or none when none is selected |
| `ScanQueue.Repository.FirstDueExcludingProviders` | internal/storage/scan_queue_repository.go:147-174 | returns a row that is due and whose provider is not excluded, and of those the first by due time, creation and key; none exactly when there is none |
| `ScanQueue.Repository.Touch` | internal/storage/scan_queue_repository.go:104-120 | counts one event and moves source, last event and reason of the row, and nothing else: due time and options stay; refuses, changing nothing, when the row is gone |
| `ScanQueue.Repository.Upsert` | internal/storage/scan_queue_repository.go:46-79 | a row with the key of the request is due no earlier than it was and no earlier than asked, at one of the two times, keeps its creation, counts one event more and takes the options of the request; without such a row there is a new one, due when asked; no other row changes |
| `ScanQueue.UpsertIsMerge` | internal/storage/scan_queue_repository.go:46-79 | the same about the merge function, in any table with unique keys |
| `ScanQueue.EnqueueChanges` | internal/app/scan_queue.go:224-256 | all that enqueueScan does to the table: one row records the request, and of the others exactly those of the group at or below a recursive request go, none if it is absorbed; the rest stay as they are |
| `ScanQueue.AbsorbedIff` | internal/app/scan_queue.go:229-233 | a request is absorbed if and only if a recursive row other than one with its own key lies at or above its path |
| `ScanQueue.DueTimeOnlyMovesLater` | internal/storage/scan_queue_repository.go:46-79 | in every run, while a row stays pending it keeps its key and creation, and its due time never moves earlier |
| `ScanQueue.RequestIsDebounced` | internal/app/scan_queue.go:224-256 | a request that is not absorbed sits in a row with its key that, as long as it stays pending, is not due before the request asks |
| `QueueRaces.DueTimeOnlyMovesLater` | internal/storage/scan_queue_repository.go:46-79 | the same in every interleaving of the single statements, and a row that is gone does not come back |
| `QueueRaces.RequestIsDebounced` | internal/app/scan_queue.go:234-245 | the same in every interleaving, from the upsert on |
| `QueueRaces.FindDecides` | internal/app/scan_queue.go:229-233 | between plain paths a call goes on to touch if and only if a recursive row lies at or above its path, unless it is recursive and has a row with its own key; the row it touches lies there |
| `ScanQueue.Repository.DeleteCovered` | internal/storage/scan_queue_repository.go:122-141 | removes exactly the selected rows |
| `ScanQueue.Repository.Delete` | internal/storage/scan_queue_repository.go:184-190 | removes the row and reports whether it was there |
| `Dispatcher.DispatcherIsSafe` | internal/app/scan_queue.go:70-196 | in every interleaving of the drain loop with finishing scans and queue changes: at most two scans hold slots, no provider is scanned twice at once, every scanning provider is locked, and no deferred release can block |
| `Dispatcher.LaunchFollowsValidation` | internal/app/scan_queue.go:118-162 | every scan that is launched is one of a row that the query of the same pass returned as due, for the provider of that row, whose target was found valid in between |
| `Dispatcher.DiscardFollowsValidation` | internal/app/scan_queue.go:129-138 | only a row whose target was found invalid is deleted without being scanned |
| `Dispatcher.WakeUpsAreSent` | internal/app/scan_queue.go:102-115 | no wake-up is received that no finishing scan has sent, and each is received once |
| `Dispatcher.RunKeepsConsistent` | internal/app/scan_queue.go:45-196 | slots held equal scans that have not returned theirs plus the drain, locks equal the providers of unfinished scans plus the one being prepared, along every trace |
| `Dispatcher.StepKeepsConsistent` | internal/app/scan_queue.go:45-196 | each step of any goroutine keeps slots, locks, snapshot and stop reason accounted for |
| `Dispatcher.LockNeverFails` | internal/app/scan_queue.go:118-129 | with one drain goroutine tryLockProvider never fails on the row the query returned |
| `Dispatcher.NoWakeUpIsLost` | internal/app/scan_queue.go:45-116 | when the worker waits with no token and no wake-up to come, a drain that stopped for slots left both taken by scans, and one that found nothing due left only due rows whose provider is still being scanned |
| `Dispatcher.ScanLeavesWake` | internal/app/scan_queue.go:102-115 | after each deferred step of a finishing scan a wake-up token is in the channel or still to be sent |
| `Dispatcher.DrainStepDecreases` | internal/app/scan_queue.go:70-116 | every step of the drain either takes exactly one row out of the queue or moves it closer to stopping, so a drain ends if nothing is enqueued |
| `Dispatcher.ScanTakesOver` | internal/app/scan_queue.go:98-115 | starting a scan hands the provider lock from the drain to the scan |
| `Dispatcher.ScanKeepsLocks` | internal/app/scan_queue.go:103-110 | a finishing scan releases its own lock once and no other |
| `Dispatcher.ScanKeepsSlots` | internal/app/scan_queue.go:103-110 | a finishing scan returns its slot once and lowers the count once |
| `Dispatcher.Worker.TryLockProvider` | internal/app/scan_queue.go:172-180 | takes the lock exactly when it is free |
| `Dispatcher.Worker.FinishScan` | internal/app/scan_queue.go:102-115 | one deferred call of a finishing scan is a step of the machine and never blocks, wherever the drain stands |
| `Dispatcher.Worker.PrepareQueuedScan` | internal/app/scan_queue.go:118-162 | is a trace of the machine; starts a scan exactly when the target is valid, the row can be deleted and its task read back, and asks to go on exactly when the target is invalid and the row deleted; a start adds one scan of the provider of the row, which stays locked; otherwise scans and locks are as before; the row is gone unless it cannot be deleted |
| `Dispatcher.Worker.NextDueRow` | internal/app/scan_queue.go:76-94 | the row it returns is due and its provider free, and a slot is taken for it; stops with all slots taken exactly when they were, with a failure exactly when the query fails, and holds no slot then |
| `Dispatcher.Worker.DrainScanQueue` | internal/app/scan_queue.go:70-116 | is a trace of the machine that terminates with every slot taken, with a failure, or with no due row whose provider is free |
| `Tasks.StatusOnlyAdvances` | internal/storage/scan_task_repository.go:144-176 | in every interleaving of runners, cancellers and failure handlers with stale copies, the stored status only moves forward and a terminal row is never overwritten |
| `Tasks.OneTerminalWrite` | internal/app/app.go:1947-1986 | at most one terminal write succeeds, exactly one has when the task is over, at most one terminal log entry follows it, and finished_at is set exactly in terminal states |
| `Tasks.EndedBy` | internal/app/app.go:1947-1986 | a finished task was ended by one step on an active row and has stayed as that left it: completed by its runner, cancelled, failed with the reason of the handler, or failed by the recovery |
| `Tasks.StepEnds` | internal/app/app.go:2078-2236 | a terminal write on an active row stores its own outcome, and no other step ends the task |
| `Tasks.UndisturbedRun` | internal/app/app.go:2078-2151 | the run of a task that nothing disturbs, from its creation through completion to pruning |
| `Tasks.CancelledRun` | internal/app/app.go:1947-1986 | a run in which a canceller ends the task under its runner, whose write is refused |
| `Tasks.RestartEndsTask` | internal/app/app.go:1899-1922 | wherever the service stops, running tasks included, the recovery that follows fails a task that is not over, with one terminal entry in the log, and leaves one that is over alone |
| `Tasks.RunKeepsInv` | internal/app/app.go:2078-2151 | copies never run ahead of the row and at most one actor owes the terminal log entry, in every state of every run from the creation of the task, restarts included |
| `Tasks.StepKeepsInv` | internal/app/app.go:2078-2236 | each read, write, log entry, prune, crash or recovery keeps that invariant |
| `Tasks.AttemptKeepsInv` | internal/storage/scan_task_repository.go:144-176 | a compare-and-set with a later copy keeps every other stale copy stale |
| `Tasks.Repository.UpdateIfActive` | internal/storage/scan_task_repository.go:144-176 | writes exactly when the stored status is pending or running, and reports it |
| `Tasks.Repository.CancelScanTask` | internal/app/app.go:1947-1969 | an active task becomes cancelled, with its time and no error and with one log entry; any other is left alone; the stored row is returned |
| `Tasks.Repository.FailTask` | internal/app/app.go:2217-2236 | an active task becomes failed, with its time and the reason and with one log entry; any other is left alone |
| `Watch.WaitGroupCounts` | internal/app/watch.go:274-320 | in every interleaving the wait group counts the timers not yet done and is never negative |
| `Watch.NoCallbackAfterStop` | internal/app/watch.go:36-65 | once stopWatchTimers has returned after the generation ended, no timer is armed and no callback is in flight |
| `Watch.SupersededNeverEnqueues` | internal/app/watch.go:274-308 | a timer replaced by a later schedule of its library enqueues nothing from then on, in every continuation |
| `Watch.CancelledNeverEnqueues` | internal/app/watch.go:291-306 | from the cancellation of a generation on none of its timers enqueues, but for those already past the check of their context |
| `Watch.OverNeverEnqueues` | internal/app/watch.go:291-306 | a callback that finds its context over does not enqueue, in every continuation |
| `Watch.ChangeRun` | internal/app/watch.go:274-308 | where a change leads that nothing disturbs: its timer fires and enqueues a scan |
| `Watch.RestartRun` | internal/app/watch.go:36-65 | from a state without armed timers the watchers can restart |
| `Watch.LastScheduleIsKept` | internal/app/watch.go:274-308 | while the generation lives and nothing is scheduled again for the library, its last timer is pending, running or has enqueued |
| `Watch.TimerEnqueuesAtMostOnce` | internal/app/watch.go:288-306 | a timer enqueues at most once whatever Stop and the callback race to |
| `Watch.RunKeepsInv` | internal/app/watch.go:36-320 | the timer map holds every armed timer under its library in every reachable state |
| `Watch.StepKeepsInv` | internal/app/watch.go:274-320 | each step keeps the map and the count in agreement |
| `Watch.SilencedNeverEnqueues` | internal/app/watch.go:288-306 | a timer that is over or displaced stays so and enqueues nothing more |
| `Watch.RescheduleSilences` | internal/app/watch.go:282-287 | scheduling again displaces the waiting timer whether or not Stop prevented it |
| `Watch.PromiseStays` | internal/app/watch.go:288-306 | a pending scan of a live generation survives every step but a new schedule of its library |
| `Watch.Timers.ScheduleLibraryRescan` | internal/app/watch.go:274-308 | is the schedule step of the machine, or nothing when the context was already over |
| `Watch.Timers.StepCallback` | internal/app/watch.go:288-306 | each statement of the callback is a step of the machine |
| `Watch.Timers.StopEvery` | internal/app/watch.go:312-316 | the loop over the map prevents exactly the armed timers of its libraries and lowers the count by their number |
| `Watch.Timers.StopWatchTimers` | internal/app/watch.go:310-318 | is the stop step of the machine: no armed timer is left in any library |
| `Credentials.StoredTokensAreBound` | internal/app/baiduopen_auth.go:654-719 | under every interleaving of save, import, callback, refresh and persist steps, each stored token was issued for the stored application |
| `Credentials.RuntimeTokensAreBound` | internal/app/baiduopen_provider.go:10-62 | so were the tokens of every runtime provider ever built, the cached one included, for the application held with them |
| `Credentials.SavedApplicationHolds` | internal/app/baiduopen_auth.go:138-190 | only the credential step moves the stored application, however late other steps arrive |
| `Credentials.LateRefreshIsDropped` | internal/app/baiduopen_auth.go:674-681 | from a save until the next one, no token that was not issued for the saved application is stored |
| `Credentials.StoredAreLastWritten` | internal/app/baiduopen_auth.go:654-719 | in every reachable state the stored tokens are those of the last write: an accepted persist writes its own, a save that changes the application writes none |
| `Credentials.RefreshStoredIff` | internal/provider/baiduopen/baiduopen.go:644-673 | after a refresh has been answered with new tokens those are the stored ones if and only if its write was accepted and no other tokens have been written since |
| `Credentials.OlderRefreshStored` | internal/app/baiduopen_provider.go:21-60 | with two token states of the stored application, the answer to the older refresh, persisted late, replaces the newer tokens |
| `Credentials.OlderTokensStored` | internal/app/baiduopen_auth.go:632-650 | a run of six steps in which the tokens of the first of two callbacks are persisted over those of the second |
| `Credentials.RunKeepsInv` | internal/app/baiduopen_auth.go:125-190 | the binding of stored rows, snapshots, runtimes, shared token states and pending writes holds in every reachable state |
| `Credentials.StepKeepsInv` | internal/app/app.go:3413-3457 | each step keeps the binding, runtimes that share a token state included |
| `Credentials.PersistIsGuarded` | internal/app/app.go:3538-3588 | a write for another application changes nothing; one for the stored application replaces all tokens and leaves the credentials |
| `Credentials.SaveStores` | internal/app/baiduopen_auth.go:159-180 | after a save the application is stored, and if it changed (always for 123pan) no token is |
| `Credentials.BuildKeepsInv` | internal/app/baiduopen_provider.go:21-60 | reusing a runtime or handing over its token state never mixes applications |
| `Credentials.RefreshKeepsInv` | internal/provider/baiduopen/baiduopen.go:644-673 | a refresh through one runtime keeps the tokens bound for all that share its token state |
| `Credentials.SecretRepository.ReplaceMany` | internal/storage/provider_secret_repository.go:127-179 | one transaction: fails and changes nothing exactly when an item belongs to another provider; otherwise the provider has its old rows less the deleted types with the items written in order, and no other provider changes |
| `Credentials.ProviderAuth.SaveCredentials` | internal/app/baiduopen_auth.go:125-176 | is the save step of the machine; refuses, changing nothing, exactly when the id or the secret is missing, where a baiduopen provider keeps the secret it has; stores the application, without tokens if it changed and always for 123pan |
| `Credentials.BuiltHoldsLastWritten` | internal/app/baiduopen_provider.go:29-49 | in every run a runtime built without a cached one of its application, from rows loaded at some earlier state, holds the tokens that were written last before that state |
| `Credentials.TokensChangeByRefresh` | internal/provider/baiduopen/baiduopen.go:644-677 | in every run a token state holds what it was made with, or the answer of the last refresh through it |
| `Credentials.InvalidatedIsRebuilt` | internal/app/baiduopen_provider.go:64-68 | after an invalidation nothing is cached until the next build, which makes a runtime with a token state of its own |
| `Credentials.SnapshotWasStored` | internal/app/app.go:3464-3474 | every snapshot holds rows that were stored at some earlier state |
| `Credentials.SaveMeans` | internal/app/baiduopen_auth.go:125-180 | when a save is refused, what it stores and which rows it leaves alone |
| `Credentials.PersistMeans` | internal/app/app.go:3538-3588 | when a persist is taken, what it stores, and that it changes no other row |
| `Credentials.ProviderAuth.PersistTokens` | internal/app/baiduopen_auth.go:654-719 | is the persist step of the machine; succeeds exactly when the write has its tokens and is for the stored application, and then its tokens are stored and no other row changes |
| `Credentials.ProviderAuth.GetOrCreateProvider` | internal/app/baiduopen_provider.go:10-62 | is the build step of the machine; the returned runtime is cached and has the root and application asked for; it shares the token state of the cached runtime of that application, or else has a new one that holds the tokens of the snapshot |
| `Credentials.ProviderAuth.RefreshAccessToken` | internal/provider/baiduopen/baiduopen.go:644-673 | is the refresh step of the machine; succeeds exactly with a refresh token (baiduopen) and a usable answer, and then the token state holds the answer and a write of it is left; otherwise nothing changes |
| `EntryIndex.ScanIsExactIff` | internal/app/app.go:2604-2666 | after a successful walk and sweep the index rows under the path are exactly the visible nodes if and only if no row the tree no longer shows already carries the stamp |
| `EntryIndex.StaleStampSurvives` | internal/storage/entry_repository.go:110-130 | the row of a file that is gone survives the sweep when it carries the stamp of the scan |
| `EntryIndex.ScannedRows` | internal/storage/entry_repository.go:110-130 | under the path exactly the visible paths and stale rows with the same stamp remain; every other row is unchanged |
| `EntryIndex.VisibleIsIndexed` | internal/storage/entry_repository.go:35-72 | every visible node has a row with its own facts and the new stamp |
| `EntryIndex.WalkIsVisible` | internal/provider/pan123/pan123.go:332-367 | the walk emits only nodes with no ignore file in any directory on the way to them, themselves included, and all of those if it succeeds |
| `EntryIndex.WalkSucceedsIff` | internal/provider/pan123/pan123.go:332-367 | a walk succeeds if and only if every directory that the tree shows answers its listing |
| `EntryIndex.WalkedRows` | internal/app/app.go:2616-2657 | however far a walk comes, each row it leaves is an old one or that of a node the tree shows, with its facts and the stamp |
| `EntryIndex.PartialScanAgreesIff` | internal/provider/pan123/pan123.go:324-330 | a scan started at a directory sees there what a scan from above sees if and only if that directory is ignored itself or no directory above it is |
| `EntryIndex.PartialScanShowsIgnored` | internal/provider/pan123/pan123.go:324-330 | a scan that starts below a directory with an ignore file shows what a scan from above hides |
| `EntryIndex.WalkIsFunctional` | internal/provider/pan123/pan123.go:332-367 | the walk emits one entry per path |
| `EntryIndex.IndexedIsVisible` | internal/app/app.go:2617-2647 | a key is upserted exactly when it is the path of a visible node, and then it is in the scope of the sweep |
| `EntryIndex.UpsertedRows` | internal/storage/entry_repository.go:35-72 | after the upserts a key is there exactly when it was or an entry has it, with that entry's row, all others unchanged |
| `EntryIndex.BelowIsUnderPrefix` | internal/storage/entry_repository.go:110-130 | a path below the scanned one passes the prefix filter of the sweep |
| `EntryIndex.EvaluateDirectory` | internal/app/scan_rules.go:18-25 | skips exactly when a file child is named .ignore |
| `EntryIndex.EntryRepository.WalkFrom` | internal/provider/pan123/pan123.go:332-367 | upserts exactly what the walk emits up to the first failed listing, on string paths, and reports only ignored directories below no ignored one as skipped, all of them when it succeeds |
| `EntryIndex.EntryRepository.Refresh` | internal/app/app.go:2604-2666 | succeeds if and only if every directory that the tree shows answers its listing, and sweeps only then; after a failure no row has been deleted; each row there afterwards is an old one or that of a node the tree shows, with its facts and the stamp |
| `EntryIndex.EntryRepository.DeleteStaleUnderPrefix` | internal/storage/entry_repository.go:110-130 | deletes exactly the rows of the provider under the prefix with another stamp |
| `EntryIndex.EntryRepository.ListUnderPrefix` | internal/storage/entry_repository.go:172-227 | lists exactly the rows in scope |
| `Outputs.MountScan.Reconcile` | internal/app/app.go:2672-2780 | nothing outside the target changes; on success every file left below it is expected, every indexed media file has its stream file, every file to be downloaded is there, with overwrite anew, unless its download failed, no text appears but stream URLs and downloads, stream files written lead to their media files, and expected files that were there stay, without overwrite as they were, unless they went with the output tree of a skipped directory: one that has their very path or holds an indexed file; on failure nothing is missing but below ignored directories; with no download cancelled it succeeds exactly when the outputs of skipped directories may be removed and every file has a place |
| `Outputs.ScanLibrary` | internal/app/app.go:2521-2557 | with no download cancelled a scan of all mounts succeeds if and only if their targets are accepted, their output roots isolated from one another and from those of the mounts of other libraries, the outputs of skipped directories removable and all files placeable; then it leaves the files of each mount reconciled as if it had been scanned alone, and no other file changed; when it fails nothing is missing but below ignored directories; the files of other libraries stay as they are in any case |
| `Outputs.MountScan.ScanMount` | internal/app/app.go:2560-2780 | the files after scanMount, less what is not among the expected outputs, are reconciled; nothing outside the target changes; with no download cancelled it succeeds exactly when the outputs of skipped directories may be removed and every file has a place |
| `Outputs.ReconciledLocal` | internal/app/app.go:2521-2557 | whether a mount is reconciled depends on the files below its target alone |
| `Outputs.ExpectedBelowDirectory` | internal/app/app.go:4052-4097 | an expected output within the output tree of a directory has the path of that tree or comes from an indexed file below the directory |
| `Outputs.CleanupReconciles` | internal/app/app.go:4870-4912 | writing every output and then deleting the unexpected rest reconciles the files |
| `Outputs.ExpectedBelowTarget` | internal/app/app.go:4052-4097 | every expected output lies strictly below the target of the scanned path |
| `Outputs.ExpectedIff` | internal/app/app.go:3888-4078 | what a scan expects, in terms of the rows and the rules alone: the place of each file that the rules want, and with stream files on that of the stream file of each media file |
| `Outputs.DownloadedIff` | internal/app/app.go:3888-4001 | a file that has a place is downloaded if and only if it is a directory-level file or a sidecar of a media file next to it |
| `Outputs.JobIsCopy` | internal/app/app.go:3888-4001 | each download goes to the place of the very file it comes from |
| `Outputs.PlacedIff` | internal/app/app.go:4080-4097 | a canonical path within the mount has a place if and only if the mount's target is accepted and no name holds a backslash or a NUL; it is the place of the same names below the mount |
| `Outputs.PlaceableIff` | internal/app/app.go:4052-4097 | a file stands in the way of a scan exactly if its path, or that of its directory, holds a character that output names refuse |
| `Outputs.StreamLeadsToMedia` | internal/app/app.go:2818 | the text of a stream file is the base, a slash, and what decodes to the bytes of the path of its media file |
| `Outputs.StreamTextsDistinct` | internal/app/app.go:2818 | two media files have the same stream text if and only if they are the same file |
| `Outputs.ReconciledLeads` | internal/app/app.go:2743-2757 | stream files that a scan writes, new ones and with overwrite all, lead to media files whose stream files they are, unless a download has the same path |
| `Outputs.OtherMountsUntouched` | internal/app/app.go:4203-4231 | a scan changes no file of a mount it is isolated from |
| `Outputs.IsolatedIff` | internal/app/app.go:4203-4231 | two mounts are isolated if and only if both targets are accepted and no file lies below both output roots |
| `Outputs.SharedStreamFileIff` | internal/app/app.go:4064-4077 | two media files share a stream file if and only if they lie in one directory and their names differ at most in the extension |
| `Outputs.RelativeSegments` | internal/app/app.go:4653-4680 | the relative path of an accepted canonical path is what its segments have below the mount |
| `Outputs.TargetDirBelow` | internal/app/app.go:4080-4097 | target directories follow the order of source directories |
| `Outputs.AllDoneIsComplete` | internal/app/app.go:2725-2775 | after both loops every output the rows call for is among the expected ones |
| `Outputs.MountScan.SyncJob` | internal/app/app.go:2687-2723 | expects its target and touches no other file; returns at once for a target synced before, and without overwrite for one that is there; otherwise the target holds the download, unless that failed, and it fails only if it was cancelled |
| `Outputs.MountScan.WriteStrm` | internal/app/app.go:2803-2839 | the stream file is there afterwards, rewritten only with overwrite, and its text is what decodes to the path of the media file; no other file changes; fails exactly when the path maps to no output |
| `Outputs.MountScan.SyncDirectory` | internal/app/app.go:3932-3951 | every directory-level file of the directory is expected afterwards and there, written anew with overwrite, unless its download failed; fails only if the directory has no place or a download is cancelled |
| `Outputs.MountScan.GenerateMedia` | internal/app/app.go:2743-2769 | the stream file is written and every sidecar expected and there afterwards, written anew with overwrite, unless its download failed; fails only if the path has no place or a download is cancelled |
| `Outputs.MountScan.CleanupStaleOutputs` | internal/app/app.go:4870-4912 | keeps exactly the files outside the target and the expected ones |
| `Outputs.MountScan.RemoveIgnored` | internal/app/app.go:2792-2801 | removes the output tree of the directory, but refuses the output root |
| `Outputs.MountScan.ClearIgnored` | internal/app/app.go:2604-2617 | only files below the outputs of skipped directories go, all of them when it succeeds, which it does exactly when each has an output directory other than the output root |
| `Outputs.MountScan.Generate` | internal/app/app.go:2725-2770 | in any order of directories, all outputs are written or expected when it succeeds, and nothing outside them changes; with no download cancelled it succeeds exactly when every file has a place |
| `Outputs.StreamFilePlace` | internal/app/app.go:4052-4078 | the stream file of a media file lies where the directory of that file is mapped to, under its name with the extension replaced |
| `Outputs.CleanupLibrary` | internal/app/app.go:2521-2557 | after the passes over all target roots a file is left exactly when every root above it finds it among the outputs of the roots within that root |
| `Outputs.LibraryCleanupIsExact` | internal/app/app.go:2521-2557 | when no root lies below another, the passes delete below the roots exactly what no mount expects |
| `Scan.ScanPath` | internal/app/app.go:2505-2520 | end to end, from the tree to the files: with no download cancelled it succeeds if and only if the path has a target, every directory the tree shows answers its listing, the outputs of skipped directories may be removed and every file has a place; on success the files below the target are reconciled with the rows the scan leaves; if those are exact, each file is derived from nodes the tree shows, each media file it shows has its stream file, new stream files lead to media files it shows, and without overwrite no output that was there is touched but one at the path of the output tree of a skipped directory; in every case nothing else changes, each row is an old one or that of a node the tree shows; with a failed listing no row is gone and no file but those below skipped directories; files outside ignored outputs go only on success |
| `Scan.ReconciledMirrors` | internal/app/app.go:2664-2780 | reconciling from the rows of an exact scan makes the files mirror the tree |
| `Scan.ListedStreamsLead` | internal/app/app.go:2743-2757 | after an exact scan the stream files it wrote lead to media files that the tree shows |
| `Scan.ReconciledUntouched` | internal/app/app.go:2664-2780 | after an exact scan without overwrite the outputs of the tree that were there are as they were, but for one at the path of the output tree of a skipped directory |
| `Scan.VisibleNotSkipped` | internal/app/app.go:2604-2617 | no file the tree shows lies below a directory the walk skipped |
| `Scan.LibraryMirrors` | internal/app/app.go:2521-2557 | after a scan of all mounts each mount whose rows are exact mirrors its tree, and its new stream files lead to media files of the tree |
| `Scan.ListedIsVisible` | internal/storage/entry_repository.go:172-227 | every row read back is a node the tree shows |
| `Scan.VisibleIsListed` | internal/storage/entry_repository.go:172-227 | every node the tree shows is read back with its path, parent, name and kind |
| `Scan.ScanMeetsScope` | internal/app/app.go:2668-2684 | rows left by a scan are canonical, below the scanned path, and split into parent and name, if those that survive by their stamp are |
| `Paths.NormalizeIdempotentIff` | internal/app/app.go:4645-4651 | normalising twice equals normalising once if and only if the normal form does not end in a blank |
| `Paths.NormalizeNotIdempotent` | internal/app/app.go:4645-4651 | the path "/a /" normalises to "/a " and that to "/a" |
| `Paths.WithinRootIsSegmentPrefix` | internal/app/app.go:4636-4643 | the string test holds if and only if the segments of the root begin those of the candidate |
| `Paths.WithinRootOrder` | internal/app/app.go:4636-4643 | the test is a partial order on normalised paths in which the ancestors of a path form a chain |
| `Paths.HasPathPrefix123` | internal/provider/pan123/pan123.go:919-934 | the loop over segments decides the same relation as providerPathWithinRoot |
| `Paths.SegmentsHavePrefix` | internal/provider/pan123/pan123.go:919-934 | decides list prefix |
| `Paths.BaiduPrefixAgreesIff` | internal/provider/baiduopen/baiduopen.go:1019-1023 | the baiduopen test agrees with providerPathWithinRoot if and only if the prefix is not the root or the value is |
| `Paths.BaiduRootIsEmpty` | internal/provider/baiduopen/baiduopen.go:1019-1023 | the baiduopen test says that "/a" is not below "/" |
| `Paths.SplitPathSegmentsIsSegments` | internal/provider/pan123/pan123.go:911-917 | splitting the trimmed normal form gives the segments of the path |
| `Paths.RenderInjective` | internal/app/app.go:4645-4651 | different segment lists are different paths |
| `Paths.ChildPathIsRendered` | internal/provider/pan123/pan123.go:840-857 | joining a path and a valid child name gives the canonical path with one more segment |
| `Paths.ChildPathIs` | internal/provider/pan123/pan123.go:510-511 | for any name a path can hold: joining it to a path trims the blanks at its end, and what is left of it is read as path.Clean reads it |
| `Paths.CleanFrom` | internal/app/app.go:4645-4651 | cleaning a rooted path joined with a relative one reads the relative one from the segments of the first |
| `Paths.DotDotGoesUp` | internal/app/app.go:4645-4651 | two dots drop the last segment, and stay at the root |
| `Paths.CleanRules` | internal/app/app.go:4645-4651 | empty elements and single dots vanish, and so do a name with the two dots after it, and two dots after nothing |
| `Paths.DeeperIsLonger` | internal/app/app.go:4584-4598 | a deeper ancestor has the longer spelling |
| `Mounts.MountRoundTripIff` | internal/app/app.go:4620-4634 | a target path within a mount, translated to its source path, maps back to the output directory of that very target path, roots "/" included, if and only if the mount's target is accepted and holds no backslash, neither the normalised source nor the normalised target path holds a backslash or a NUL, and no blank is in the way: for the target itself the source ends in none or is nothing but blanks, for a path below it that path ends in none and the mount covers its own source; and which error there is otherwise |
| `Mounts.BlankSourceIsOutside` | internal/app/app.go:4653-4680 | a mount source that normalises to "/a " is found outside of itself, so nothing below the mount's target is mapped back |
| `Mounts.BackslashIsNotMapped` | internal/app/app.go:4689-4718 | with a backslash in the mount's target no source path maps to a directory below that target as it is spelled |
| `Mounts.TranslationLandsIff` | internal/app/app.go:4620-4634 | the translated path has the segments of the mount's source followed by those of the target path below the mount's target, and so lies within the source, if and only if that path does not end in a blank |
| `Mounts.BlankLostInTranslation` | internal/app/app.go:4620-4634 | a mount of the root at the root translates "/a /" to a path without the blank |
| `Mounts.LongestCoveringRoot` | internal/app/app.go:4584-4598 | finds a root exactly when one covers the path, and then the first with the longest normal form; that is the first deepest one if it does not end in a blank |
| `Mounts.FindMountForSourcePath` | internal/app/app.go:4584-4598 | returns a mount exactly when one covers the path, one with the longest normal form; no covering mount is deeper, if that does not end in a blank |
| `Mounts.FindMountForTargetPath` | internal/app/app.go:4600-4618 | the same on the target side |
| `Mounts.LongestIsDeepest` | internal/app/app.go:4584-4598 | the first covering root with the longest normal form is the first deepest one, if that form does not end in a blank |
| `Mounts.ShorterCoverIsAncestor` | internal/app/app.go:4584-4598 | of two covering roots the shorter spelling is the ancestor, if the longer does not end in a blank |
| `Mounts.BlankRootChosen` | internal/app/app.go:4584-4598 | a root that ends in blanks is chosen for its length over a deeper one |
| `Mounts.RelativeOfRendered` | internal/app/app.go:4653-4680 | the relative path of a stable path spelled below the mount's source is its tail of segments, or an error exactly for a backslash or a NUL or if the mount does not cover its own source, which takes a blank at its end |
| `Mounts.MountOutputRootIsTarget` | internal/app/app.go:4689-4718 | without backslashes the output root has the segments of the target path |
| `Mounts.MountOutputRootIff` | internal/app/app.go:4689-4718 | a mount's target is accepted if and only if, blanks around it aside, it is not empty, holds no NUL and no element that is two dots, and does not begin with a drive letter; backslashes count as slashes |
| `Mounts.DotsAreRefused` | internal/app/app.go:4653-4680 | a provider path with a `.` or `..` element, first or between others, gives no output path, whatever the mount |
| `Like.EscapingIsExact` | internal/storage/entry_repository.go:25-29 | for all strings the escaped prefix followed by "/%" matches exactly the strings that begin with the prefix and a slash |
| `Like.PrefixFilterIsExact` | internal/storage/entry_repository.go:334-337 | for all strings the escaped prefix followed by "%" matches exactly the strings that begin with the prefix |
| `Like.UnderPrefixIsWithinRoot` | internal/storage/entry_repository.go:110-151 | on normalised paths the SQL filter selects exactly what providerPathWithinRoot accepts |
| `Like.EscapedPrefix` | internal/storage/entry_repository.go:395-397 | an escaped prefix matches itself literally in front of any pattern |
| `Like.SubtreePatternExactIff` | internal/storage/scan_queue_repository.go:81-102 | the unescaped subtree pattern is exact for every string if and only if the path holds no metacharacter |
| `Like.MisclassifiedBy` | internal/storage/scan_queue_repository.go:122-141 | every path with a metacharacter has a string its pattern misjudges |
| `Percent.DecodeUndoesEscape` | internal/app/app.go:4730-4749 | decoding an escaped path, less its leading slash, gives the bytes of the normalised path, for every path |
| `Percent.StreamPathsDistinct` | internal/app/app.go:4730-4736 | two paths share a stream path if and only if they normalise to the same path |
| `Percent.UnescapeEscaped` | internal/app/app.go:4730-4749 | unescaping undoes escaping on every byte string |
| `Percent.EscapedHasNoSlash` | internal/app/app.go:4730-4736 | an escaped segment holds no slash |
| `Percent.EscapedIsSegment` | internal/app/app.go:4730-4736 | an escaped segment is a segment of the grammar of RFC 3986 (section 3.3), its escapes in upper case |
| `Percent.UnreservedStands` | internal/app/app.go:4730-4736 | unreserved characters stand for themselves, and no byte takes more than three characters |
| `Percent.UnescapeOkIff` | internal/app/app.go:4738-4749 | a text is unescaped if and only if two hexadecimal digits, in either case, follow each percent sign |
| `Percent.Utf8IsWellFormed` | internal/app/app.go:4730-4736 | the bytes of a character are well-formed UTF-8 (section 4 of RFC 3629), in the shortest form |
| `Percent.HexDigitsAreRead` | internal/app/app.go:4738-4749 | hexadecimal digits are read in either case and written in upper case |
| `Percent.Utf8Injective` | internal/app/app.go:4730-4736 | different texts have different bytes |
| `NodeAgreement.DirAgreesIff` | internal/provider/pan123/pan123.go:452-483 | for every path: outside the root resolveDir fails; within, if no segment ends in a blank, it gives what the plain walk gives if and only if it is not asked for a root known as a file; if one does, if and only if the names do not pass: from what was known at the start, not every name leads to a directory, or one that ends in a blank leads to a path that is neither known nor listed on the way |
| `NodeAgreement.NodeAgreesIff` | internal/provider/pan123/pan123.go:433-450 | the same for resolveNode: without such a segment it agrees if and only if it is not asked for an existing root other than "/" that is not known yet; with one, if and only if the path is not known as it is spelled, and the names of the directory above do not pass or the last does not lead on |
| `NodeAgreement.RootAgreesIff` | internal/provider/pan123/pan123.go:485-508 | for every provider root: without such a segment resolveRoot gives what the plain walk gives if and only if the root is not known as a file; with one, if and only if its names do not pass |
| `NodeAgreement.DirTripIs` | internal/provider/pan123/pan123.go:452-483 | for every path within the root: resolveDir ends where the names lead from the remote root, each read without its blanks, if and only if they pass; what the caches know then is what they knew and the children of the directories listed |
| `NodeAgreement.NodeTripIs` | internal/provider/pan123/pan123.go:433-450 | for every path within the root: resolveNode ends at the path itself if that is known, and else where its names lead, if and only if those of the directory above pass and the last leads on |
| `NodeAgreement.RootTripIs` | internal/provider/pan123/pan123.go:485-508 | resolveRoot ends where the names of the root lead, if and only if it is known or they pass |
| `NodeAgreement.WalkedIs` | internal/provider/pan123/pan123.go:471-482 | from any sound caches and any names: a walk ends where the names lead if and only if they pass, and lists exactly the directories a name was not known in |
| `NodeAgreement.OrdinaryPassesIff` | internal/provider/pan123/pan123.go:510-525 | names that stay names without their blanks lead to the trimmed path, and pass if and only if a directory is there and each name with a blank at its end was known at the start under its trimmed path |
| `NodeAgreement.DirLandsWithinIff` | internal/provider/pan123/pan123.go:539-545 | the directory resolveDir gives lies within the provider root if and only if the names it follows lead there; the check of the source is on the path as it is spelled |
| `NodeAgreement.NodeLandsWithinIff` | internal/provider/pan123/pan123.go:539-545 | the same for resolveNode; a path known as it is spelled is within the root |
| `NodeAgreement.OnlyDotsLeaveRoot` | internal/provider/pan123/pan123.go:510-514 | with a root none of whose names ends in a blank, only a name of two dots before blanks leads out of it |
| `NodeDifferences.DotsLeaveRoot` | internal/provider/pan123/pan123.go:510-525 | in every tree with the directories "/a/b" and "/a/c", a provider with root "/a/b" and empty caches takes "/a/b/.. /c" for a path within its root and gives "/a/c" |
| `NodeDifferences.DotsLeaveRootOfTree` | internal/provider/pan123/pan123.go:510-525 | such a tree |
| `NodeDifferences.BlankNameReachedThroughCache` | internal/provider/pan123/pan123.go:510-514 | "/a /b" is not in the tree; resolveDir fails on it, caches "/a" by doing so, and then gives "/a/b"; resolveNode gives "/a/b" at once |
| `NodeDifferences.FileRootResolvedTwice` | internal/provider/pan123/pan123.go:485-508 | a root that is a file fails to resolve once and then resolves |
| `NodeDifferences.ColdRootNotFound` | internal/provider/pan123/pan123.go:433-450 | an existing root "/a" is not found as a node before it has been resolved |
| `NodeCache.CachesAreSound` | internal/provider/pan123/pan123.go:760-816 | each path the caches hold is the path of a node of the tree |
| `NodeCache.Provider.ResolveDir` | internal/provider/pan123/pan123.go:452-483 | for every path and any sound caches: ends where the trip of resolveDir ends, with the node the plain walk finds there, or fails when the trip does; the caches stay sound and know exactly what the trip makes known |
| `NodeCache.Provider.ResolveNode` | internal/provider/pan123/pan123.go:433-450 | the same for the trip of resolveNode |
| `NodeCache.Provider.ResolveRoot` | internal/provider/pan123/pan123.go:485-508 | the same for the trip of resolveRoot, for every provider root |
| `NodeCache.Provider.ValidatePathWithinRoot` | internal/provider/pan123/pan123.go:539-545 | allows every path when the root is "/", and else those whose segments, normalised twice more, begin with the segments of the root |
| `NodeCache.Provider.WalkSegments` | internal/provider/pan123/pan123.go:471-482 | the same for the loop over segments, whatever the names |
| `NodeCache.Provider.FindNamedChild` | internal/provider/pan123/pan123.go:510-525 | the child known under the path that the name makes, blanks trimmed, or else the listed one of that very name; listing makes all children known |
| `NodeCache.Provider.ListNodesById` | internal/provider/pan123/pan123.go:369-391 | gives the live children of the directory, cached or not, stores them, makes their paths known and keeps the caches sound |
| `NodeCache.Provider.GetCachedNode` | internal/provider/pan123/pan123.go:760-782 | memory first, then the store, from which memory is filled; what it gives is what the plain walk gives for that path |
| `NodeCache.Provider.GetCachedChildren` | internal/provider/pan123/pan123.go:798-816 | gives exactly what is stored, never when the cache is bypassed; what it gives is the listing of the directory at that path |
| `NodeCache.LookupIsPlaced` | internal/provider/pan123/pan123.go:840-857 | the node found at a path carries that path |
| `NodeCache.ListingShows` | internal/provider/pan123/pan123.go:374-388 | a listing shows exactly the items that are not in the trash and have an id and a name, blanks trimmed, below the directory listed |
| `NodeCache.LookupChild` | internal/provider/pan123/pan123.go:369-391 | each listed child is what the plain walk finds under its name |
| `Paging.ListAll` | internal/app/app.go:1677-1707 | following next_cursor until has_more is false yields every row of the provider and prefix asked for exactly once, the latest first and then by provider and path, for any limit, and ends |
| `Paging.ListCursor` | internal/storage/entry_repository.go:307-393 | refuses exactly a partial cursor; otherwise the page is the first rows of the selection in order, no more than the limit or 200 without one, and has_more tells exactly whether rows are left |
| `Paging.NextSelection` | internal/app/app.go:1689-1697 | past the last row of a page lies exactly what the page left out |
| `Paging.OrderedLimit` | internal/storage/entry_repository.go:351-352 | the first rows of a selection in the order of the listing, all of them when they are fewer than the limit |
| `Paging.CutLast` | internal/storage/entry_repository.go:387-391 | dropping the row past the limit leaves the first rows and something unread |
| `Paging.BeforeIsTotal` | internal/storage/entry_repository.go:351 | the order of the listing is total on distinct keys |
| `Paging.LessIff` | internal/storage/entry_repository.go:351 | text is compared at the first difference, and comes before its continuations |
| `Paging.BeforeIsTransitive` | internal/storage/entry_repository.go:351 | and transitive |
| `Cron.ParseCronField` | internal/app/schedule.go:155-193 | fails exactly when an item does, with its error; the set it builds holds exactly what the items build, wrap-around included, and that is what they denote if and only if no item lets the 64-bit counter wrap around |
| `Cron.CollectItem` | internal/app/schedule.go:184-190 | terminates for every step and adds exactly the values of the item, or, when the counter wraps around, the values it returns to until a step passes the end |
| `Cron.BuildsWhatItDenotesIff` | internal/app/schedule.go:184-190 | items build what they denote if and only if none of them lets the counter wrap around |
| `Cron.FieldIsNonEmptyAndBounded` | internal/app/schedule.go:155-193 | a field that parses denotes something, within its bounds with 7 read as 0 |
| `Cron.StepFieldSafeIff` | internal/app/schedule.go:165-178 | a number with a step denotes that number alone, and is safe if and only if their sum stays within 64 bits |
| `Cron.LargestStepRunsAtMinute57` | internal/app/schedule.go:184-190 | the set built from minute 59 with the largest step holds minute 57, which the field does not denote |
| `Cron.FieldRoundTrip` | internal/app/schedule.go:155-193 | ranges with steps, written out and joined by commas, are read back as the same items |
| `Cron.ItemRoundTrip` | internal/app/schedule.go:165-183 | a range with a step, written out, is read back |
| `Cron.FieldsOfJoin` | internal/app/schedule.go:118-121 | words joined by blanks are the fields of the line |
| `Cron.ParseCronSchedule` | internal/app/schedule.go:117-153 | succeeds exactly on five fields that parse, and then holds what each of them builds: for a lone star the whole range of that field of the clock, and for fields without wrap-around nothing outside of it |
| `Cron.MatchesIsCron` | internal/app/schedule.go:235-253 | for every line that parses the match test is the usual reading of a cron line over the sets its fields build: a lone star leaves the day to the other field, two restrictions are alternatives |
| `Cron.SafeLineRunsAsMeant` | internal/app/schedule.go:117-153 | with no wrap-around in it a line runs exactly when it means to |
| `Cron.AtMostOncePerMinute` | internal/storage/scan_schedule_repository.go:147-161 | with minute keys that never go back, a schedule is marked at most once for a minute, whatever edits come in between |
| `Cron.MarkedAgainIff` | internal/storage/scan_schedule_repository.go:147-161 | whatever the clock does: a minute that was marked is marked again if and only if the schedule is there and enabled, another minute was marked in between, and this one not again since |
| `Cron.ClockGoingBackMarksTwice` | internal/storage/scan_schedule_repository.go:147-161 | when the clock goes back one minute key can be marked twice |
| `Cron.ScheduleRepository.MarkRunOf` | internal/storage/scan_schedule_repository.go:147-161 | marks exactly an enabled schedule not yet marked for the minute, after which that minute is taken |
| `Cron.ScheduleRepository.CheckScanSchedules` | internal/app/schedule.go:39-67 | starts exactly the schedules that parse, whose fields as built hold for the time, and that take the minute; none of them can take it again |
| `Cron.AtoiToText` | internal/app/schedule.go:224-233 | a number written out is read back, up to the largest 64-bit one |
| `Cron.AtoiSigned` | internal/app/schedule.go:224-233 | a sign in front of a number is read, and a number beyond 64 bits is not |
| `Cron.ItemsOfNumbers` | internal/app/schedule.go:165-233 | what a list item comes to: a number within its bounds, a range that does not go back, the whole field by a step, or the error of each |
| `Cron.SetsFitTheClock` | internal/app/schedule.go:117-153 | a lone star builds the whole range of its field of the clock, and a field without wrap-around nothing outside of it |

## Left out

Nothing was executed; these are proofs about the model.

- ScanQueue.RequestStaysCovered: enqueueScan is one step there and paths hold no `%`, `_` or backslash; `QueueRaces.RequestStaysCovered` takes its statements apart, and `ScanQueue.EnqueueCoversIff` and `ScanQueue.EnqueueKeepsCoverIff` are for any paths.
- QueueRaces.RequestStaysCovered: each statement is atomic, as a single SQL statement is, and a call that meets a database error stops there.
- ScanQueue.Repository.EnqueueScan: database errors between its statements, `status` (every row is pending) and the text of the reason JSON are not modelled.
- Dispatcher.Worker.DrainScanQueue: shutdown through the context is not modelled, and while it runs nothing else moves; interleavings are those of the machine it is a trace of.
- Dispatcher.Worker.PrepareQueuedScan: whether the target of a row is still valid (internal/app/scan_queue.go:198-222) is an answer it is given.
- Tasks.RestartEndsTask: recovery is a step on one task; that it reads only the newest 200 tasks is not modelled.
- Watch.Timers.StopWatchTimers: stops before the Wait, which is a step of the machine.
- Credentials.StoredTokensAreBound: the generic secret endpoint (internal/app/app.go:1067-1133) writes credentials without clearing tokens and is not one of the steps; token expiry is a nondeterministic choice to refresh, and the caches and entries deleted with changed credentials are not modelled.
- Credentials.LateRefreshIsDropped: tokens issued for the same application in an earlier period are accepted, as the source accepts them.
- Credentials.RefreshStoredIff: a refresh and its persist are two steps here; within one token state its lock keeps them together, so the orders that differ are those of two token states or of a callback.
- EntryIndex.ScanIsExactIff: names in listings are single path segments without surrounding blanks and differ among siblings; columns other than kind, name, one facts column and the stamp are not modelled.
- EntryIndex.EntryRepository.Refresh: cancellation counts as a failed listing.
- Outputs.MountScan.Reconcile: mount sources and index paths are canonical. No directory or temporary file occupies the path of an output.
- Outputs.StreamLeadsToMedia: the base of stream URLs, with the provider in it, is a parameter.
- Outputs.MountScan.SyncJob: that a download is asked for once shows only in the files; how often it is asked for is not modelled.
- Outputs.ScanLibrary: each mount is given by the rows of the index below its source and the directories its walk skipped.
- Outputs.MountScan.ClearIgnored: runs after the walk instead of during it, so an error of it does not stop the walk half-way.
- Scan.ScanPath: the normal form of the mount's source does not end in a blank; mirroring the tree takes rows before the scan none of which carries its stamp wrongly; file rows that do are rows strictly below the scanned path.
- Mounts.MountRoundTripIff: the target path lies within the mount, as it does for the mount that the search on the target side returns.
- Mounts.LongestCoveringRoot: compares the number of characters of a path where the program compares bytes; on one chain of ancestors none of which ends in a blank the two orders agree.
- Percent.DecodeUndoesEscape: at the level of the functions; the stream handler decodes a path the HTTP library has decoded before.
- NodeCache.Provider.ResolveDir: on a fixed remote tree with valid, distinct names, every directory of which can be listed.
- NodeAgreement.DirAgreesIff: the plain walk is given the segments of the path normalised once; where the spelling of that ends in a blank the source normalises it again, and `NodeAgreement.DirTripIs` says where it then goes.
- Paging.ListAll: on a fixed table whose rows have a time, a provider and a path; text is compared by code point, so other collations are out.
- Cron.AtMostOncePerMinute: minute keys are numbers; time zones are out.
- Like.EscapingIsExact: a pattern that ends in a lone escape character, an error in SQL, is not built by the program and matches itself here.
- enqueueManualLibraryScan, enqueueScanSchedule and runFullScan resolve targets and call enqueueScan or scanMount for each; the calls are modelled, the loops are not.
- The current-level scan (internal/app/app.go:2238-2448) is a shorter scan without recursion.
- The name tables for media, directory files and sidecars are parameters; case folding is inside them.
- Real files, symbolic links and rooted file handles are a map from path to text; a download is a text, a failure or a cancellation.
- HTTP handlers, the user interface, sessions, Emby proxying, cloud APIs with their retries and paging, QR login, migrations and the copy between databases.
- The other providers (local, cookie115, open115) have walks of their own and are not modelled.
