# Kariba: verified model of the daemon's stateful cores

This project models the parts of the Kariba daemon that keep state, and proves what its design
promises of them. Kariba watches file events, scans files with ClamAV and moves infected ones into
a quarantine directory. The model covers:

- **The real-time scan queue** (`pending`, `db`, `queue`, `queue_order`, `pipeline`, `overflow`, `shutdown`):
  five in-memory lanes, a dedup set, a spill buffer and the `pending_scans` table. `queue` has the
  object with its methods; `pipeline` is the same code as a step machine, one step per critical
  section, with what each thread holds between two locks (an evicted victim, a path to push again, a
  batch taken from the table, a spill batch) made explicit, for any number of threads.
- **The verdict cache, the churn cooldown and the intake of kernel events** (`cache`, `churn`, `triage`, `intake`).
- **Quarantine** (`quarantine`, `lifecycle`): every file operation may fail at any point; detection,
  quarantine, restore and delete interleave freely over the tables and the files.
- **Walking and scanning** (`walker`, `scan`, `catchup`): the explicit-stack walk over a file system
  looked up path by path, the scan loop with its counters, the catch-up sweep.
- **Codecs and settings** (`bytes`, `instream`, `reply`, `fanotify`, `text`, `exclusions`, `settings`).

`dafny verify dfyconfig.toml` checks everything. Objects whose methods update fields are classes;
each method is proved equal to a step of a specification, and the theorems are about runs of it.

## Where the code differs from its comments

- **A write that meets the full queue is lost.** `push_scan` puts the new path into the dedup set,
  evicts a victim and calls itself; the second call finds the path in the dedup set and returns
  (`realtime.rs:301-316`). `Overflow.OneWriteTooMany` is a run from the empty queue that ends so, and
  `Overflow.PhantomNeverScanned` shows the path is never scanned again until shutdown, in any
  continuation. The condition is exact path by path: `Overflow.NamedInVainIff` says which paths end up
  refused, and `Overflow.WrittenFate` that all others are kept, however full the queue gets. The model
  therefore has two forms of the push, `AsWritten` and `AsMeant` (the path is released from the dedup
  set before the second call). "Nothing is ever dropped" is proved of the second without condition,
  and of the first for every path none of whose own pushes overflows; shutdown and restart likewise.
- **Shutdown can lose paths a worker has in hand.** Not only a batch already taken, but also a worker
  that has passed its look at the exit flag and has not yet reached the table, empties the table
  after the remainder was persisted. `Shutdown.ShutdownSavesIff` is the exact condition.
- **The start-up trim loop may not end** when one entry alone exceeds the budget: halving one entry
  removes nothing (`VerdictCache.TrimTerminatesIff`). For the same reason `cache_put` stays within a
  budget exactly when two entries fit (`VerdictCache.StaysWithinIff`).
- **A `put` that fails after the move strands the file.** The message says "left in place"
  (`realtime.rs:1124`), but when only the lock of the blob is refused the file is in its blob, whole
  (`QuarantineStore.LockRefused`).
  `QuarantineStore.Quarantine.Put` says exactly which refused operations lead there, and
  `Lifecycle.FailedPutFate` that the file then stays there for good: its threat remains "detected", never
  gets a quarantine row, and no handler reaches the blob.
- **Clearing the churn map** forgets pending re-scans and ends running cooldowns: over a run, exactly when
  some write finds the map over its bound (`Churn.MarkSurvivesIff`, `Churn.CooldownHoldsIff`).
  `Churn.OneFileTooMany` is such a run from the empty map.
- **An extension pattern with an inner dot**, such as `*.tar.gz`, passes normalisation and matches no
  file; one with a slash, which a settings file can hold, matches none either (`Exclusions.EntryMatchesIff`).
- **An interrupted catch-up sweep** is recorded as completed (`Catchup.RunCatchup`, `realtime.rs:1552-1554`).
- **A signature that ends in a colon** turns a finding into an engine error, for every such signature and
  no other (`EngineReply.TrailingColonLosesFinding`, `EngineReply.FindingKeptIff`), and a signature with
  ": " inside comes back shortened (`EngineReply.SignatureKeptIff`).
- **An error reply of the form `ERROR: ...: OK`** is read as clean (`EngineReply.ErrorReadAsClean`);
  `EngineReply.CleanIff` gives the exact condition.

## Model

| member | source | states |
|---|---|---|
| ScanQueues.PushKeeps | crates/karibad/src/realtime.rs:299-331 | One critical section of a push, in either form, keeps lanes duplicate-free, disjoint, inside the dedup set and under the cap; below the cap it adds exactly the new path, at the cap it gives up exactly one queued path |
| ScanQueues.PushExactIff | crates/karibad/src/realtime.rs:301-316 | The dedup set stays equal to the lanes if and only if the form is the intended one or the push is not of a new path at the cap; otherwise the new path is named but in no lane |
| ScanQueues.PushWholeEffect | crates/karibad/src/realtime.rs:299-331 | The whole call without interference: at the cap the victim is the only thing spilled, and as written the new path is in no lane, as meant it is at the end of its lane |
| ScanQueues.PushLandsIff | crates/karibad/src/realtime.rs:295-331 | After the call the path is in a lane if and only if the push did not overflow; always, in the intended form |
| ScanQueues.PopKeeps | crates/karibad/src/realtime.rs:368-380 | A pop yields nothing only when everything is empty, takes exactly one path out of lanes and dedup set, and touches neither for gate bookkeeping |
| ScanQueues.ReloadKeeps | crates/karibad/src/realtime.rs:389-396 | Reloading a batch queues exactly the paths of it that are not known yet and keeps the shape |
| ScanQueues.DrainTakesAll | crates/karibad/src/realtime.rs:403-418 | Draining returns exactly the paths of all lanes, the gate included |
| ScanQueues.ScanQueue.PushScan | crates/karibad/src/realtime.rs:299-331 | The method as written does what the specification of the written form says to lanes, dedup set and spill buffer |
| ScanQueues.ScanQueue.Pop | crates/karibad/src/realtime.rs:362-400 | With the exit flag set nothing is handed out and nothing touched; otherwise one call up to its return or its wait: outcome, lanes and table as specified, reloads included |
| ScanQueues.ScanQueue.PopLanes | crates/karibad/src/realtime.rs:368-380 | The lane part of pop refines the specified pop |
| ScanQueues.ScanQueue.ReloadBacklog | crates/karibad/src/realtime.rs:388-396 | The reversed push-front loop refines the specified reload |
| ScanQueues.ScanQueue.Drain | crates/karibad/src/realtime.rs:403-418 | All paths in draining order; queue and dedup set are left empty |
| ScanQueues.ScanQueue.TakeSpillBuf | crates/karibad/src/realtime.rs:333-335 | The buffer's content, leaving it empty |
| ScanQueues.ScanQueue.Persist | crates/karibad/src/realtime.rs:349-356 | The batch goes into the table with one row per path |
| ScanQueues.ScanQueue.PushGateDetection | crates/karibad/src/realtime.rs:339-345 | A denied exec's bookkeeping goes to the end of the gate lane, with no cap and no dedup; nothing else changes |
| QueueOrder.QueueRefinesList | crates/karibad/src/realtime.rs:299-380 | Over any sequence of critical sections the five deques give the outputs of one list: pops are the earliest entry of the best class, evictions the newest of the worst live class, drains the order of repeated pops |
| QueueOrder.StepMatches | crates/karibad/src/realtime.rs:299-418 | Each critical section is one step of the list machine and keeps the correspondence |
| QueueOrder.PopMatches | crates/karibad/src/realtime.rs:368-380 | A pop takes the earliest entry of the best non-empty class in the order gate, exec, data with churn, media, backlog |
| QueueOrder.EvictMatches | crates/karibad/src/realtime.rs:304-316 | An eviction takes the newest entry of the worst non-empty live class |
| QueueOrder.ListStepDetermined | crates/karibad/src/realtime.rs:358-380 | The list machine leaves no choice of what is popped, given up or drained |
| QueueOrder.FreshQueueRefinesList | crates/karibad/src/realtime.rs:263-277 | From the fresh queue on, the outputs of the deques are exactly those the empty list can give, for every sequence of calls |
| Pipeline.StepKeeps | crates/karibad/src/realtime.rs:299-400 | Every critical section, in either form, keeps the shape of queue and table; in the intended form also exactness; as written, whoever has made room for a path finds it refused |
| Pipeline.RunKeeps | crates/karibad/src/realtime.rs:299-418 | The same over every run |
| Pipeline.StepTracks | crates/karibad/src/realtime.rs:295-400 | One step loses no path: it stays in a lane, buffer, table or thread's hands, or a worker takes it; as written too, unless the step pushes this very path into the full queue |
| Pipeline.NoPathLost | crates/karibad/src/realtime.rs:295-400 | Over every interleaving a tracked path stays tracked until a worker takes it to scan it: always as meant, and as written whenever no push of this path overflows, whatever other paths do |
| Pipeline.PushedIsNeverLost | crates/karibad/src/realtime.rs:295-331 | From its push on, a path is tracked or has been taken since, whatever happens; both forms, under the same condition |
| Pipeline.ReachableKeeps | crates/karibad/src/realtime.rs:263-277 | From boot, with any number of threads and any table left by the last lifetime, the shape holds in every reachable state |
| Pipeline.PopIsRun | crates/karibad/src/realtime.rs:362-400 | One call of pop, flag up or down, is a run of that worker's own steps of the machine: the flag first, then the lanes, then the table, round by round |
| Pipeline.PushIsRun | crates/karibad/src/realtime.rs:299-331 | One call of push_scan, in either form, is a run of that feeder's own steps of the machine |
| Pipeline.StepInventsNothing | crates/karibad/src/realtime.rs:299-400 | Only a push, a sweep or drained gate bookkeeping brings a path in; only tracked paths are scanned |
| Overflow.StepExactIff | crates/karibad/src/realtime.rs:301-316 | As written, a step keeps the dedup set exact if and only if it does not push a new path at the cap |
| Overflow.RunExactIff | crates/karibad/src/realtime.rs:301-316 | Over a run before the drain, the whole dedup set is exact at the end if and only if no push of any path overflowed |
| Overflow.PhantomNeverScanned | crates/karibad/src/realtime.rs:301-316 | A path named but in no lane stays so and is never scanned, in every continuation up to the drain |
| Overflow.NamedInVainIff | crates/karibad/src/realtime.rs:301-316 | Path by path, over any run before the drain: a path ends up named in vain if and only if it was so at the start or one of its own pushes overflowed |
| Overflow.FittingRun | crates/karibad/src/realtime.rs:299-331 | A run as written on which every push fits is a run of the intended form |
| Overflow.WrittenLosesNothingThatFits | crates/karibad/src/realtime.rs:295-331 | As written, a path none of whose own pushes overflows is not lost, over any run, the shutdown drain included |
| Overflow.WrittenFate | crates/karibad/src/realtime.rs:295-331 | The fate of a tracked path as written: kept if none of its own pushes overflowed, refused from then on if one did |
| Overflow.OneWriteTooMany | crates/karibad/src/realtime.rs:301-316 | A concrete run from the empty queue after which the last path is nowhere and refused for good |
| Shutdown.BufferedIsTrackedOrGate | crates/karibad/src/realtime.rs:1641-1643 | Before shutdown, what counts as buffered is exactly the tracked paths and those of waiting gate bookkeeping, for every path not named in vain |
| Shutdown.ShutdownSaves | crates/karibad/src/realtime.rs:1637-1648 | With no worker at risk, every interleaving of the shutdown leaves every buffered path in the table; as written, every such path that is not itself pushed into the full queue on the way down |
| Shutdown.ShutdownSavesIff | crates/karibad/src/realtime.rs:1637-1648 | In either form and whatever the other threads are in the middle of: every schedule persists everything if and only if no worker is at risk when the exit flag is set |
| Shutdown.LateVisitLoses | crates/karibad/src/realtime.rs:381-387 | A worker past the exit check but not yet at the table: the schedule and the path it loses, from any state of the other threads |
| Shutdown.PlainShutdown | crates/karibad/src/realtime.rs:1637-1648 | From any live state there is a shutdown in which no worker stirs, after which the table holds exactly what was on track |
| Shutdown.HeldBatchLoses | crates/karibad/src/realtime.rs:382-394 | A path only a worker's batch holds is missed by the drain |
| Shutdown.PersistRemainder | crates/karibad/src/realtime.rs:1641-1643 | Spill buffer, lanes and gate go into the table: exactly their paths, no row lost |
| Shutdown.PopShrinks | crates/karibad/src/realtime.rs:364-399 | Every delivered task leaves fewer things waiting through all reloads; waiting means everything is empty |
| Shutdown.Work | crates/karibad/src/realtime.rs:1366-1379 | The worker loop delivers the specified sequence of tasks and stops with lanes and table empty |
| Shutdown.RestartDrains | crates/karibad/src/realtime.rs:381-396 | A fresh queue delivers each pending path exactly once, in queued_at order, across reloads of 200 rows |
| Shutdown.RestartScansAll | crates/karibad/src/realtime.rs:1633-1648 | Whatever was buffered at shutdown is scanned by the next lifetime, in either form, under the same conditions |
| Shutdown.ScannedNowOrNextTime | crates/karibad/src/realtime.rs:295-418 | From boot to the next lifetime: a pushed path is scanned before the exit flag or persisted and scanned after restart, with no worker at risk and, as written, if its own pushes fit |
| Pending.InsertOrIgnoreKeeps | crates/karibad/src/db.rs:225-230 | INSERT OR IGNORE keeps key and order, adds exactly the missing path and leaves every other row as it is |
| Pending.SpilledKeeps | crates/karibad/src/db.rs:213-233 | Spilling a batch leaves one row per path, loses no old row and no new path |
| Pending.TakeSplits | crates/karibad/src/db.rs:236-254 | Taking a batch splits the table into its oldest part, as many rows as asked for if there are, and the rest, with no path in both or in neither |
| Pending.TakenAreOldest | crates/karibad/src/db.rs:239 | No row of the batch is younger than a row that stays |
| Database.Db.SpillPending | crates/karibad/src/db.rs:216-233 | The batched insert does what is specified |
| Database.Db.TakePending | crates/karibad/src/db.rs:236-254 | The oldest rows up to the limit are returned and removed |
| Database.InsertThreatKeeps | crates/karibad/src/db.rs:126-147 | A new history row has a fresh key, adds one to its scan and disturbs nothing else |
| Database.SetThreatStatusKeeps | crates/karibad/src/db.rs:149-154 | A status change moves no row of any table |
| Database.InsertQuarantineKeeps | crates/karibad/src/db.rs:156-170 | A new quarantine row has a fresh key and adds one to the scan of its threat |
| Database.InsertScanKeeps | crates/karibad/src/db.rs:110-117 | A new scan has a fresh key, is running, has counted nothing and has no threat or quarantine row |
| Database.FinishScanKeeps | crates/karibad/src/db.rs:119-124 | Finishing a scan sets its counts and status and touches no other row |
| VerdictCache.CacheAgreesWithHistory | crates/karibad/src/realtime.rs:738-754 | Over every run of puts, detections and evictions a cached verdict is the last one recorded for its key |
| VerdictCache.OneDetectionPerVersion | crates/karibad/src/realtime.rs:961-972 | With one verdict per file version, a version is handled as detected at most once more than it is evicted |
| VerdictCache.FirstOneWins | crates/karibad/src/realtime.rs:961-972 | Without evictions or gate puts of the version it is handled exactly once |
| VerdictCache.EvictionKeepsHalf | crates/karibad/src/realtime.rs:741-750 | An eviction only removes entries and keeps at least half, never none |
| VerdictCache.SizeBound | crates/karibad/src/realtime.rs:738-754 | For fixed average entry size the cache never exceeds its cap (or two entries) by more than the direct infected inserts, over any run |
| VerdictCache.EstimateMeans | crates/karibad/src/realtime.rs:491-493 | The estimate is three halves of the serialised bytes, rounded down |
| VerdictCache.StaysWithinIff | crates/karibad/src/realtime.rs:744-750 | cache_put keeps every run within the budget if and only if the budget holds two entries |
| VerdictCache.TrimTerminatesIff | crates/karibad/src/realtime.rs:636-643 | The start-up loop ends if and only if nothing was loaded or one entry fits |
| VerdictCache.LoadAfterSave | crates/karibad/src/realtime.rs:538-554 | Loading a file that lists the cache in any order gives the cache back |
| VerdictCache.VerdictStore.Put | crates/karibad/src/realtime.rs:738-754 | The verdict is on record, nothing else added or changed; an arbitrary half goes exactly when one more entry would not fit |
| VerdictCache.VerdictStore.CheckAndSet | crates/karibad/src/realtime.rs:964-971 | Reports a detection exactly when the version was not already recorded as infected |
| VerdictCache.VerdictStore.Trim | crates/karibad/src/realtime.rs:636-643 | When it ends: within budget, after as few halvings as that takes, a sub-map of what was loaded, unchanged if that already fitted |
| VerdictCache.VerdictStore.Save | crates/karibad/src/realtime.rs:758-786 | The entries written load back to the cache and the average entry size is measured anew; nothing is written when nothing changed |
| Churn.GrantsSpaced | crates/karibad/src/realtime.rs:798-851 | While the map is not cleared, the k-th grants of a path are k cooldowns apart, counting writes and flushes together, even when a flush works with a time read before an earlier write |
| Churn.RateBound | crates/karibad/src/realtime.rs:795-851 | At most T / cooldown + 1 grants in any window of length T |
| Churn.DirtyMeans | crates/karibad/src/realtime.rs:805-813 | The mark holds exactly when a write was refused since the last grant |
| Churn.RefusedIsScanned | crates/karibad/src/realtime.rs:827-851 | A refused write is re-queued by the first flush past the cooldown unless a later write was granted before |
| Churn.MarkSurvivesIff | crates/karibad/src/realtime.rs:800-802 | Over a run that does not grant the path, the first flush past the cooldown re-queues a refused write if and only if the run never clears the map |
| Churn.CooldownHoldsIff | crates/karibad/src/realtime.rs:800-808 | Over such a run, a write within the cooldown is refused if and only if no write, itself included, finds the map over its bound |
| Churn.OneFileTooMany | crates/karibad/src/realtime.rs:798-813 | A run from the empty map that forgets a refused write and grants the same file twice at one instant |
| Churn.ChurnGate.TryQueue | crates/karibad/src/realtime.rs:798-825 | Let in if and only if the path is unknown, its cooldown is over or the map is over its bound; the entry as granted or marked, the others untouched |
| Churn.ChurnGate.Flush | crates/karibad/src/realtime.rs:829-847 | Exactly the marked paths whose cooldown is over, each once, granted now; no other entry changes |
| Intake.Watcher.ExecVerdict | crates/karibad/src/realtime.rs:856-931 | Read off the stat results, the cache, the clock and the engine's outcome: what is answered, which gate task or exec-lane scan is left, what the cache then holds for the file, and how much time went by; an eviction only where a put calls for one |
| Triage.CaseDoesNotMatter | crates/karibad/src/realtime.rs:194-233 | Two spellings of a file name that differ only in letter case share a lane |
| Triage.LaneIff | crates/karibad/src/realtime.rs:194-233 | Which files reach which lane, from the ending of the name, the mode bits, the directory and the extension, in any letter case |
| Intake.Watcher.QueueWrite | crates/karibad/src/realtime.rs:1712-1723 | The path is queued once, in its lane, unless it is a live database the churn gate holds back; no fd or gate action |
| Intake.Watcher.AnswerPerm | crates/karibad/src/realtime.rs:1690-1705 | One answer, DENY exactly when the path is present, not vanished, not excluded by either list and infected |
| Intake.Watcher.ConsiderPath | crates/karibad/src/realtime.rs:1706-1744 | Close-write and open events never answer or close, and queue exactly the eligible paths: open events only on a cache miss of a regular file |
| Intake.Watcher.IntakeEvent | crates/karibad/src/realtime.rs:1664-1747 | One event leads to exactly the actions its mask, fd and answers call for, in order: bookkeeping, the answer if asked for, the close, or the overflow note alone; clock, cache and churn map likewise |
| Intake.Watcher.Batch | crates/karibad/src/realtime.rs:1623-1630 | For a batch of any length: every push, answer and close in order and nothing else, one for one with the denials, the misses without a verdict and the eligible paths, each event judged by what its predecessors left; all scanning over before budget plus timeout and within the watchdog limit |
| Intake.EventDecided | crates/karibad/src/realtime.rs:1664-1747 | The specification of one event agrees with the decisions read off mask, fd, path, stat results, engine outcome, cache and churn map alone: gate exclusions, the engine's own writes, opened directories and cached versions included |
| Intake.VerdictDecides | crates/karibad/src/realtime.rs:872-930 | The same for the verdict on one guarded file: refused if and only if the version is cached as infected, or is not cached, there is time, and the engine finds it infected |
| Intake.ScanDecides | crates/karibad/src/realtime.rs:1712-1723 | A file brought up for scanning goes into its lane, a churning one only when unknown or past its cooldown; else its entry is marked |
| Intake.BatchDuties | crates/karibad/src/realtime.rs:856-931 | The trace of any batch, kind by kind: answers and closes in event order; one gate task per denial; one exec-lane push per guarded miss without a verdict and one push per eligible path |
| Intake.EveryFdClosedOnce | crates/karibad/src/realtime.rs:1661-1747 | If overflow records carry no fd: in any batch every fd is closed exactly once and every permission event answered exactly once, with the verdict on its own file |
| Intake.AnswerBeforeClose | crates/karibad/src/realtime.rs:1703-1746 | Every answer is followed at once by the close of its own fd |
| QuarantineStore.Quarantine.Put | crates/karibad/src/quarantine.rs:27-41 | Which refused operations make it succeed or fail, exactly; on success the blob has every byte and no permission bit and nothing else is touched, size and mode reported; on failure the file is whole, in its blob if and only if only the lock was refused, else at its place |
| QuarantineStore.Quarantine.Restore | crates/karibad/src/quarantine.rs:43-51 | Succeeds exactly when no operation fails, and then the file is at its place with the mode and the blob gone; on any failure the blob holds every byte |
| QuarantineStore.Quarantine.Delete | crates/karibad/src/quarantine.rs:53-55 | The blob is gone or nothing changed |
| QuarantineStore.Quarantine.MoveFile | crates/karibad/src/quarantine.rs:58-68 | Completes exactly by rename or by copy and remove across devices, with one effect; a failed move leaves the source whole |
| QuarantineStore.PutThenRestore | crates/karibad/src/quarantine.rs:27-51 | Put then restore is the identity on the whole file system, mode bits included |
| QuarantineStore.BroughtBackMeans | crates/karibad/src/quarantine.rs:43-51 | After a restore that succeeds the file has every byte and the permission bits asked for, the blob is gone, nothing else is touched |
| QuarantineStore.LockRefused | crates/karibad/src/quarantine.rs:32-34 | A concrete case: only the lock is refused, put reports failure, and the file is in its blob instead of its place |
| QuarantineStore.BlobPathInjective | crates/karibad/src/quarantine.rs:32 | Threats never share a blob path, and every blob lies in the directory |
| Lifecycle.StepKeeps | crates/karibad/src/server.rs:304-338 | Every step of detection, quarantine, restore, delete or the outside world keeps the lifecycle invariant |
| Lifecycle.RunKeeps | crates/karibad/src/realtime.rs:1060-1107 | The invariant holds in every reachable state |
| Lifecycle.ReachableKeeps | crates/karibad/src/db.rs:97-101 | From an empty database the invariant holds in every reachable state, and every row shows through the joins |
| Lifecycle.QuarantinedIffOneRow | crates/karibad/src/db.rs:126-170 | A threat is quarantined exactly when it has exactly one row, and otherwise has none |
| Lifecycle.RowsHaveOwnBlobs | crates/karibad/src/db.rs:172-205 | Every row shows through the joins, its blob exists, and no two rows share one |
| Lifecycle.RestoreGivesBack | crates/karibad/src/server.rs:304-322 | A restore that succeeds gives back the bytes the file had when it was moved and the permissions it had when put looked at it, whatever happened in between |
| Lifecycle.StatusStep | crates/karibad/src/db.rs:149-154 | A status moves only from detected to quarantined to restored or deleted, and no threat row is removed or otherwise changed |
| Lifecycle.StatusRun | crates/karibad/src/db.rs:276-278 | Over any run the history is append-only and no status goes back |
| Lifecycle.DroppedForGood | crates/karibad/src/scanner.rs:180-182 | A detected threat nobody holds stays detected, never gets a row, and its blob, if it has one, is out of every handler's reach |
| Lifecycle.FailedPutFate | crates/karibad/src/realtime.rs:1086-1105 | After a failed put the threat stays detected without a row over every continuation; the file is at its place, or, if the move went through, its bytes lie in an unreachable blob for good |
| Lifecycle.Daemon.RestoreItem | crates/karibad/src/server.rs:304-322 | Succeeds exactly for a known id when no file operation fails; then one restore step: the row gone, the threat restored; otherwise the tables as they were |
| Lifecycle.Daemon.DeleteItem | crates/karibad/src/server.rs:324-338 | Succeeds exactly for a known id whose blob can be removed; then the row and the blob are gone and the threat is deleted; otherwise nothing changed |
| Lifecycle.Daemon.HandleDetection | crates/karibad/src/realtime.rs:1060-1107 | A file that is gone leaves no trace; any other gets exactly one history row, whatever the setting, and one quarantine row if it was put away; a legal run of the machine; quarantined, left or stranded exactly by which operations were refused |
| Lifecycle.Daemon.RecordInfected | crates/karibad/src/scanner.rs:156-184 | The scanner's path is a legal run too; exactly one history row and, if the file was put away, one quarantine row, as the scan job has it for the outcome the put had |
| Walker.FileWalker.Next | crates/karibad/src/scanner.rs:50-74 | The stack loop yields the next file of the recursive walk, outside the skipped directory and not excluded, leaves the rest of the walk, and ends |
| Walker.VisitIff | crates/karibad/src/scanner.rs:50-74 | The walk yields exactly the regular files with no skipped, excluded, symlinked or unlisted node on their chain |
| Walker.VisitStackIff | crates/karibad/src/scanner.rs:37-74 | The same for a walk from several roots |
| Walker.WalkYieldsIff | crates/karibad/src/scanner.rs:50-74 | Read off the file system and the lists alone: exactly the regular files below a root whose ancestors from there on list the next name, none of them, nor the file, in the skipped directory or excluded |
| Walker.SkippedNever | crates/karibad/src/scanner.rs:52 | Nothing in the quarantine directory is ever yielded |
| Walker.EachFileOnce | crates/karibad/src/scanner.rs:50-74 | With roots that do not overlap, each such file is yielded exactly once |
| Walker.ExcludedDirPrunes | crates/karibad/src/scanner.rs:52-54 | An excluded directory, by prefix or by its own extension, takes its whole subtree out |
| Walker.RemovedElsewhere | crates/karibad/src/scanner.rs:118-131 | Removing a yielded file does not disturb the rest of the walk |
| Catchup.SweepDirIff | crates/karibad/src/realtime.rs:1511-1549 | A sweep collects exactly the files below the mount with no excluded node on their chain, the mount itself untested |
| Catchup.Sweep.ListDir | crates/karibad/src/realtime.rs:1524-1548 | One directory: its files recorded, its subdirectories pushed, across flushes of 500 |
| Catchup.Sweep.WalkMount | crates/karibad/src/realtime.rs:1512-1549 | One mount: the whole sweep of it, or a prefix exactly when the flag shows before its last directory |
| Catchup.RunCatchup | crates/karibad/src/realtime.rs:1483-1563 | Interrupted if and only if the exit flag shows before the last directory is visited; uninterrupted, exactly the swept files are added to the table; interrupted, everything walked so far is; recorded as completed either way, with the exact count |
| Scanner.CountFiles | crates/karibad/src/scanner.rs:118-120 | The counting pass counts the walk |
| Scanner.ScanJob.Infected | crates/karibad/src/scanner.rs:136-185 | History row, file and quarantine row for one infected file: the tables as specified, the books balanced |
| Scanner.InfectedRecordsMean | crates/karibad/src/scanner.rs:157-184 | What one infected file adds: one threat row under the next key with its scan, path and signature, quarantined or detected, and one quarantine row exactly if it was put away |
| Scanner.ScanJob.File | crates/karibad/src/scanner.rs:135-220 | Rows, file and counters follow the verdict exactly; the flag is raised exactly for a request, a gone client or a failed progress message |
| Scanner.ScanFiles | crates/karibad/src/scanner.rs:131-221 | The loop visits the walk in order, stops only at its end, at the flag or at a lost connection, misses no file while files are being quarantined, and leaves exactly the rows, counts and files the verdicts call for |
| Scanner.RunScan | crates/karibad/src/scanner.rs:84-240 | On every way out threats and skipped are the numbers of such verdicts, every infected file visited has its own threat row with path and signature, and a quarantine row exactly if put away, and no other rows are written; cancelled exactly on a request, early or in flight, or a lost client, with at most the file in flight finished; uncancelled, files_scanned equals files_total |
| Scanner.ActiveScans.Cancel | crates/karibad/src/server.rs:231-244 | Raises exactly the flags asked for and counts those newly raised |
| Instream.StreamRoundTrip | crates/engines/clamav/src/lib.rs:181-198 | However reads split a file, decoding the stream gives the file back and stops at the terminator |
| Instream.DecodeChunk | crates/engines/clamav/src/lib.rs:190-191 | A data chunk is never taken for the terminator and its length survives the 32-bit field |
| Bytes.BigEndianOrder | crates/engines/clamav/src/lib.rs:190 | Chunk lengths are big-endian: the i-th byte from the end counts 256 to the power i |
| Instream.PrefixIncomplete | crates/engines/clamav/src/lib.rs:185-193 | No proper prefix of a stream decodes to a whole file |
| Instream.Stream | crates/engines/clamav/src/lib.rs:181-194 | What is sent decodes to the file; after a failed read it decodes to nothing |
| EngineReply.CleanOnlyIfOk | crates/engines/clamav/src/lib.rs:210-237 | A verdict that does not end in the letter K, such as any finding, is never read as clean |
| EngineReply.CleanIff | crates/engines/clamav/src/lib.rs:210-222 | A reply is read as clean if and only if its verdict, from its last ": " on, trims to OK, whatever the path contains |
| EngineReply.ErrorReadAsClean | crates/engines/clamav/src/lib.rs:214-232 | Every reply of the form ERROR: message: OK is read as clean |
| EngineReply.ReplyRoundTrip | crates/engines/clamav/src/lib.rs:210-228 | Clean replies, and signatures without ": " inside or a colon at the end, are read back as sent, for every path and terminator |
| EngineReply.TrailingColonLosesFinding | crates/engines/clamav/src/lib.rs:214-228 | Every signature that ends in a colon is read as an engine error |
| EngineReply.FindingKeptIff | crates/engines/clamav/src/lib.rs:214-228 | A finding is read as a finding if and only if its signature does not end in a colon |
| EngineReply.SignatureKeptIff | crates/engines/clamav/src/lib.rs:214-228 | A signature comes back as sent if and only if it does not end in a colon and has no ": " inside |
| EngineReply.ErrorMessageKept | crates/engines/clamav/src/lib.rs:229-233 | The message behind the word ERROR comes out as sent, if it has no ": " inside and no colon in front |
| EngineReply.TrailingErrorKept | crates/engines/clamav/src/lib.rs:234-236 | A verdict in no known form, such as one that ends in ERROR, is an error with the whole verdict as its message |
| EngineReply.NoVerdictIsError | crates/engines/clamav/src/lib.rs:214-218 | A line without ": " is an error with the line as its message |
| Fanotify.ParseAll | crates/karibad/src/fanotify.rs:110-128 | On any concatenation of well-formed records, of any lengths, exactly their events come out in order |
| Fanotify.ParseStops | crates/karibad/src/fanotify.rs:112-127 | Too few bytes, another version or a short length end the parse; a record longer than what was read is delivered as the last |
| Bytes.LittleEndianOrder | crates/karibad/src/fanotify.rs:112-120 | Header fields are little-endian: the i-th byte counts 256 to the power i |
| Fanotify.ParseBytes | crates/karibad/src/fanotify.rs:112-127 | The offset loop over the filled part of the buffer computes the specified events and ends |
| Fanotify.ReadEvents | crates/karibad/src/fanotify.rs:105-129 | A failed read is an error; otherwise only the n bytes read are parsed |
| Exclusions.PrefixClosed | crates/karibad/src/exclusions.rs:51-69 | Prefix exclusion, full or gate-only, extends to everything below |
| Exclusions.PrefixIsComponentwise | crates/karibad/src/exclusions.rs:51-54 | Prefixes compare whole components |
| Exclusions.ExcludedIff | crates/karibad/src/exclusions.rs:51-61 | Excluded if and only if an absolute prefix covers the path or its lower-cased extension is listed |
| Exclusions.ExtensionIff | crates/karibad/src/exclusions.rs:58-60 | The extension is what follows the last dot of the name, if something precedes that dot |
| Exclusions.EntryCoversExactly | crates/karibad/src/exclusions.rs:19-25 | A settings entry that spells out a path excludes that path and what is below, nothing else |
| Exclusions.GateEntryCoversExactly | crates/karibad/src/exclusions.rs:33-40 | An entry of the gate list keeps its subtree from the gate and from nothing else |
| Exclusions.TildeCovers | crates/kariba-core/src/paths.rs:97-108 | An entry "~" or "~/..." covers exactly what it spells out below the home directory; without one it covers nothing |
| Exclusions.PrefixesIff | crates/karibad/src/exclusions.rs:19-25 | A list covers exactly what one of its trimmed, non-blank entries covers |
| Exclusions.PatternsIff | crates/karibad/src/exclusions.rs:26-32 | An extension is listed if and only if a trimmed entry is `*.` and that extension in some letter case |
| Exclusions.EntryMatchesIff | crates/karibad/src/exclusions.rs:55-60 | An extension entry matches some path of real file names if and only if it has no dot, slash, NUL or upper-case letter |
| Exclusions.ExclusionList.AddPrefix | crates/karibad/src/exclusions.rs:45-49 | Afterwards exactly the old exclusions and the new subtree are excluded; the gate list is unaffected |
| SettingsNorm.NormalizedFailsIff | crates/karibad/src/server.rs:371-427 | A list is refused if and only if some entry has a bad shape |
| SettingsNorm.NormalizedKeepsFirst | crates/karibad/src/server.rs:383-426 | The result is duplicate-free and lists the first occurrences in their order, missing none |
| SettingsNorm.NormalizedIdempotent | crates/karibad/src/server.rs:367-427 | Normalising twice changes nothing more |
| SettingsNorm.CleanPathIff | crates/karibad/src/server.rs:373-386 | A path entry is kept, trimmed, if and only if it starts with / or ~/; blank ones are dropped |
| SettingsNorm.CleanExtensionIff | crates/karibad/src/server.rs:391-408 | An extension entry is the lower-cased text behind its stars and dots: dropped if blank, refused with a slash, else kept as a pattern |
| SettingsNorm.NormalizeList | crates/karibad/src/server.rs:371-427 | The loop with its seen-set computes the specified result |
| SettingsNorm.Settings.Normalize | crates/karibad/src/server.rs:370-439 | Accepted if and only if all lists are acceptable and the percentage is above 0 and at most 5; then all three lists are normalised; a refused list is left empty |
| SettingsNorm.ExtensionMeaning | crates/karibad/src/exclusions.rs:26-32 | After normalisation a path is excluded by extension exactly when the pattern of its lower-cased extension is listed |

## Left out

- Pipeline: does not model poisoned locks or a process that dies between two steps; each critical section is atomic and succeeds.
- Pipeline.NoPathLost: for the code as written it needs that no push of the path itself overflows, which `Overflow.NamedInVainIff` shows to be exact.
- Shutdown.ShutdownSavesIff: a scan in flight when the flag is set is finished or interrupted outside the queue and is not counted as buffered.
- Shutdown.RestartScansAll: gate bookkeeping comes back as a plain scan, because the drain keeps only its path.
- Pending: rows with equal `queued_at` keep their insertion order; the two runs of the ordered query see the same table.
- Paths are sequences of components; lossy display and names that are not valid Unicode are not modelled. Text operations are ASCII.
- VerdictCache.SizeBound: the average entry size is fixed over a run; the code, and `VerdictCache.VerdictStore.Save`, re-measure it at each save. Estimates are unbounded integers, so overflow of the 64-bit product is not modelled.
- VerdictCache.VerdictStore.Trim: requires the condition under which the loop ends, which `TrimTerminatesIff` shows to be exact.
- VerdictCache.VerdictStore.Save: JSON text, of which only the length enters, and the atomic rename of the cache file are not modelled; the file is its list of entries.
- Intake.Watcher.Batch: no other thread touches cache or churn map during the batch; work other than verdict scans takes no time, and a verdict scan takes at most its timeout; pushes are recorded in a trace, whose effect on the queue is the subject of `ScanQueues`.
- Intake: watcher restarts, the watchdog thread and the closing of the fanotify descriptor itself are not modelled.
- Lifecycle: SQL statements succeed; other processes never touch the quarantine directory; detected paths lie outside it, as the exclusions and the walker's skip ensure.
- QuarantineStore.Quarantine.Restore: a file that has meanwhile appeared at the original path is overwritten, as in the code; ownership and timestamps are not modelled.
- Walker: symbolic links above a root are not resolved; a file system is a map from paths to kinds, read at the moment of each lookup.
- Catchup.RunCatchup: the file system holds still during the sweep; waiting for the live queue to drain has no effect on what is swept.
- Scanner.RunScan: counters are unbounded, and during the scan no other thread changes the rows of this scan; the engine connection is made before the model starts.
- Instream: connecting, keep-alive, retry on a broken connection, the size ladder and the scratch copy for large files.
- SettingsNorm.Settings.Normalize: the percentage is a real number, so the not-a-number value, which the code would accept, does not occur.
- Progress and ETA lines, error suppression, status notes, broadcasts, the command line, the desktop application and the survey are not modelled.
