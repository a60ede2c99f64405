# Vullify, verified

Vullify is a container-image vulnerability scanner: API handlers, a scheduler and webhooks queue scans on a Redis list,
a pool of workers runs them and stores the results in Postgres, and an enricher, a CLI and an API read them. This
project models that core in Dafny and proves what it promises. `dafny verify dfyconfig.toml` checks everything.

## What is modelled

**The scan job protocol** (`Protocol`, `Guarantees`, `Phases`, `Cancellation`, `OpenScans`, `Runner`, `Producers`,
`Listener`).
One transition system over any number of scans, images and workers: each Postgres or Redis call is one step, and each
may fail, before or after taking effect. `Protocol` defines the steps and an inductive invariant over tables, list,
phase keys, events and worker program counters; no worker UPDATE is guarded by the row's status, so the guarantees rest
on that invariant.
`Guarantees` holds the theorems about every run. `Runner` and `Producers` are the Go code as Dafny methods: between any
two of their calls the other actors may take any number of steps, and the methods are proved to take protocol steps
only, so every theorem about runs holds of the code. `Cancellation` says exactly when a cancelled scan stays cancelled,
and `OpenScans` exactly which steps keep at most one open scan an image.

**The result store** (`Tables`, `Backend`, `Persist`, `ScanDetail`). `PersistScanResults` works on a copy that is swapped
in or dropped; `GetScanDetail` answers from the denormalised counters or from a GROUP BY.

**The scheduler** (`SchedulerLock`, `RegistrySync`, `UpsertRace`, `Catalog`, `Rescan`, `Durations`, `ChangeDetection`).
The TTL lock and its int64 arithmetic; registry reconciliation against a specification on sets of keys; the race between
concurrent upserts; the grammar of scan frequencies; and the three rescan passes, which are protocol runs. A pass is
proved twice in one: beside any other actors, and, when its parameter `alone` is true, exactly.

**Codecs and loops** (`ImageRef`, `AuthChallenge`, `Epss`, `Enrichment`, `Paging`). `Text` and `Int64` hold the Go library
functions they use.

Conventions. When a method's parameter `calm` is true, its calls do not fail and its context is not cancelled; when
`alone` is, no other actor runs between them. A contract says what holds without these and what holds, exactly, with
them. An error may hide a statement that took effect. Functions of type `nat -> bool` name the calls that fail. Methods
that change state are proved against specification functions (`Committed`, `Apply`, `AfterSync`, `ValuesOf`, ...), and the
lemmas are about those: what they come to is also stated on the texts and numbers themselves (`SeverityIff`, `StoredRows`,
`SameDigestIff`, `NormalizeCVEIff`, `PullRefOf`, `UnitValues`, ...), where a name in any letter case with white space
around it is `Text.Reads`.

## What the proofs found

- A cancelled scan whose producer, list entry or worker may still write it can come back; `CancelledIsFinalIff` gives
  the exact condition, and `BothOccur` a reachable state on either side.
- A blank layer digest of a package, resolution of a misconfiguration, title or digest of a secret is sent as NULL to a
  NOT NULL column, so one such row makes the whole transaction fail, on every retry. `PersistScanResults` succeeds if
  and only if `Fits` holds and no statement fails; `BlankDigestDoesNotFit` is such a result.
- `GetScanDetail` ignores suppressions while the lists apply them; `DetailMatchesListIff` says when they agree, and
  `DetailAcrossCommit` covers a commit between its two reads. `SuppressedFindingOccurs` reaches the failing side of both.
- The scheduler lock outlives its job's deadline only from an interval of 8000 s on; below that two replicas' jobs can
  overlap (`JobsExcludeEachOtherIff`). The comment in `internal/scheduler/lock.go:20` promises only a TTL shorter than
  the interval.
- The retry backoff overflows int64 from retry 38 on, that is, with a retry limit of 39 or more (`BackoffExact`).
- `parseImageRef` reads an untagged reference to a registry with a port as a docker.io image (`PortIsTakenForTag`);
  `ParseUntaggedIff` says exactly when an untagged reference is read as it is written.
- The comment at `internal/scheduler/tasks.go:145` names "7d" as a frequency, but there is no day unit: it is an
  error (`SevenDaysRefused`), like any frequency with a "d" in it (`DaysAreRefused`), and its target is never due
  (`DayTargetsAreNeverDue`). `FrequencyAcceptedIff` says exactly which frequencies are accepted.
- A busy image whose digest changed has its digest advanced without a scan of the new content
  (`RunChangeDetection`: new scans are exactly the changed images that were idle; `BusyChangeGoesUnscanned`, and
  `BusyChangeOccurs` for such an image).
- The images table has no unique index, so two concurrent upserts of a new key can leave two active rows (`TwoAtOnce`);
  `MoveKeepsUniqueIff` and `RunKeepsUniqueIff` say exactly which statements and runs keep one.
- Two open scans of one image are possible, even if every producer checks before it inserts: a worker sets a cancelled
  or failed scan running beside a newer one (`WorkerReopens`). `StepKeepsOneOpenIff` and `RunKeepsOneOpenIff` say
  exactly which steps and runs keep one open scan an image; a scheduler pass alone does, and a manual scan, beside steps
  that keep it, does at every moment if and only if its image was idle at the insert (`InsertedRunOneOpen`; the state
  after the handler alone does not tell, by `ClosingHeals`).
- `ListAllFindings` silently stops after 1,000,000 rows.

## Model

| member | source | states |
|---|---|---|
| Protocol.InitInv | internal/db/scans.go:27-109 | the empty deployment satisfies the invariant |
| Protocol.StepKeepsInv | internal/worker/runner.go:80-188 | every step of every producer, worker, canceller, clock and key expiry keeps the invariant: no scan pushed twice, no two workers on one scan, rows and counters agree, Redis never ahead of Postgres |
| Protocol.UpdateKeepsInv | internal/db/scans.go:27-92 | the unguarded running and failed UPDATEs of a worker never hit a completed row, because a worker's program counter is past its commit exactly when its scan is completed |
| Protocol.CommitKeepsInv | internal/db/persist_scan.go:170-194 | a commit completes only the committing worker's scan, with times in order and counters equal to the histogram of the stored findings |
| Protocol.CompletedEventKeepsInv | internal/worker/runner.go:182-187 | publishing completion is the last thing said about the scan |
| Protocol.PopIsOldest | internal/worker/runner.go:90-101 | BRPOP hands out the oldest pushed job, whose scan no worker has held |
| Protocol.ReportKeepsMessage | internal/worker/runner.go:154-171 | a reported failure begins with the error's own message, and has more to say for pull failures only |
| Guarantees.CompletedIsFinal | internal/db/scans.go:27-109 | under every interleaving a completed scan keeps status, counters, times, message and stored results, and started no later than it completed |
| Guarantees.CompletedRun | internal/worker/runner.go:116-188 | the inductive form: any run from an invariant state leaves a completed scan's row and results as they are |
| Guarantees.RowStory | internal/db/scans.go:27-109 | in every reachable state a row fits its status (pending: no times, no message, no counts; running: started; ended: an end time that is past; failed: a message), and no later state changes its image, its trigger or a start time once set |
| Guarantees.ResultsOnlyWhenCompleted | internal/db/persist_scan.go:170-218 | in every reachable state only completed scans have results, and counters are the histogram of the finding rows |
| Guarantees.Fifo | internal/scanqueue/scanqueue.go:57-75 | popped jobs followed by the list from its pop end are the pushed jobs in order, each scan once |
| Guarantees.JobConservation | internal/worker/runner.go:80-114 | a scan is with its producer, in the list once, held by one worker, or spent, never two of these |
| Guarantees.NothingAheadOfCommit | internal/worker/runner.go:142-218 | a "completed" event or phase key implies a completed row with its results, now and in every later state |
| Guarantees.CompletedEventIsLast | internal/worker/runner.go:182-203 | at most one "completed" event a scan, and no event of the scan after it |
| Guarantees.ProgressIsHonest | internal/api/handlers_scans.go:256-295 | the progress endpoint shows "completed" only for a completed row, whatever runs between its reads of Redis and Postgres |
| Phases.KeyFollowsAttempt | internal/worker/runner.go:142-218 | along any run in which a worker's phase calls take effect, the phase key of its scan, while it has not expired, is "initializing", "scanning" while the scanner runs, "persisting" during the transaction, "completed" after the commit or "failed" after a failure, whatever other actors do |
| Phases.ShownWhileRunning | internal/api/handlers_scans.go:256-295 | with that key the progress endpoint shows an attempt as running until it commits or fails |
| Guarantees.QueuedCanComplete | internal/worker/runner.go:80-188 | from every reachable state a listed scan can still complete with any result the schema takes: the safety theorems are not empty |
| Cancellation.CancelledIsFinalIff | internal/db/scans.go:83-109 | a cancelled scan stays cancelled in every future if and only if no producer, list entry or still-writing worker is left for it |
| Cancellation.BothOccur | internal/db/scans.go:94-109 | both sides of that condition are reachable |
| Runner.Deployment.constructor | internal/worker/runner.go:242-258 | a retry limit that is not positive becomes 3 |
| Runner.Interfere | internal/worker/runner.go:55-67 | what a worker's code may rely on between two calls: any steps of the others, none of its own, and none at all when it is alone |
| Runner.OthersKeepTask | internal/worker/runner.go:55-67 | no run of the other actors moves a worker's task |
| Runner.SetScanPhase | internal/worker/runner.go:210-218 | one protocol step that writes the phase key at most, and without faults does |
| Runner.PublishScanEvent | internal/worker/runner.go:197-208 | one protocol step that publishes the event at most, and without faults does |
| Runner.UpdateScanRunning | internal/db/scans.go:27-42 | one protocol step that leaves the row running, with a start time; a scan without a row is an error, which never happens to a held scan |
| Runner.UpdateScanFailed | internal/db/scans.go:82-92 | one protocol step: status failed, end time now, and the message, whatever the status was |
| Runner.CommitResults | internal/worker/runner.go:173-180 | one protocol step that records exactly the result, its counters and the facts of its row, or nothing; without faults it succeeds exactly when the rows fit |
| Runner.RunPipeline | internal/worker/runner.go:142-188 | the code takes protocol steps only, in the protocol's order, under any interference; nil means the scan is completed and holds exactly the scanner's result, with its counters, image facts and scanner version; without faults nil exactly for a result that fits, with the completion published and shown by the progress endpoint, and after an error the row is failed with the reported message, the failure is published after that, and the endpoint shows it, with or without the phase key |
| Runner.ProcessJobWithRetry | internal/worker/runner.go:116-140 | between 1 and MaxRetries attempts, stopping at the first success or pull failure; nil exactly when the last attempt succeeded, with that attempt's results and scanner version recorded; the waits sum to TotalWait; without faults the scanner's answers decide every attempt, and how the last one ended is what the row, the events and the progress endpoint show |
| Runner.OthersKeepReport | internal/db/scans.go:82-109 | no run of the other actors takes back a published event, or changes the failed row of a scan that a worker still holds |
| Runner.BackoffExact | internal/worker/runner.go:120-121 | the int64 backoff before retry n is 100 ms times 2^(n-1) if and only if n is at most 37 |
| Runner.TotalWaitExact | internal/worker/runner.go:119-128 | the waits of k attempts sum to 100 ms times 2^(k-1) - 1, for k up to 38 |
| Runner.BrPop | internal/worker/runner.go:90-101 | hands out the last entry of the list as the others left it, as a fresh task, and removes that entry only; without faults None means an empty list |
| Runner.WorkerLoop | internal/worker/runner.go:80-114 | the jobs popped in any number of turns, each thrown away exactly if its payload does not decode, and otherwise taken through the retry loop: nil means its results are still recorded at the end; without faults the answers decide every attempt and its completion or failure is published; alone, the jobs are the oldest entries of the list in order, and without faults one a turn as long as there are any |
| Producers.InsertScanRow | internal/db/scheduler_store.go:39-48 | one pending row under a fresh id; an error may leave a row no producer knows of |
| Producers.PushJob | internal/scanqueue/scanqueue.go:57-75 | one list entry on success, none or one on an error |
| Producers.Submit | internal/api/handlers_scans.go:88-102 | insert, interference, push: success means the job of a new scan that nobody claimed was pushed last; a failure may strand the row and leaves no producer behind; alone, exactly one of insert-and-push and insert-and-give-up, or nothing |
| OpenScans.InsertedRunOneOpen | internal/db/scheduler_store.go:39-60 | from an insert on, a run shows at most one open scan an image in all its states if and only if the image was idle at the insert and no later step doubles one; then its last state does too |
| Producers.ElsewhereKeeps | internal/scanqueue/scanqueue.go:57-75 | until its job is pushed, a pending scan can only be cancelled by the others |
| Producers.CreateScan | internal/api/handlers_scans.go:78-108 | an image that cannot be scanned is answered as not found; without faults any other gets a new manual scan with its own pull reference, and the run from its insert on is given, with the condition for one open scan an image; a failed final read is an error although the job was pushed |
| Producers.RerunScan | internal/api/handlers_scans.go:312-356 | without faults a new scan of the previous scan's image, under another id; nothing for an unknown scan or an image that cannot be scanned; the run from its insert on, and the same answer for a failed final read |
| Producers.SubmitIfIdle | internal/webhook/handler.go:149-168 | without faults a busy image is skipped and an idle one gets a webhook scan; the insert happens in a later state, where another actor may have made the image busy, with the condition for one open scan an image |
| Producers.ProcessAsync | internal/webhook/handler.go:130-174 | the event is stored, and marked processed only if it was skipped or submitted, without faults always; the image is upserted, which touches or inserts its one row at most; then as SubmitIfIdle |
| Producers.CancelScan | internal/db/scans.go:94-109 | the row of a pending or running scan becomes cancelled now, no other row moves, and without faults the caller is told exactly when that happened |
| OpenScans.StepKeepsOneOpenIff | internal/db/scans.go:27-42 | a step keeps at most one open scan an image if and only if it is neither an insert for a busy image nor a worker setting a scan running beside an open one of its image |
| OpenScans.RunKeepsOneOpenIff | internal/worker/runner.go:142-154 | a whole run never shows two open scans of an image if and only if none of its steps doubles one |
| OpenScans.ClosingHeals | internal/db/scans.go:94-109 | the last state alone does not tell: a cancel can leave one open scan again after an insert for a busy image |
| OpenScans.WorkerReopens | internal/db/scans.go:28-33 | a run whose inserts all found the image idle, after which a worker sets a cancelled scan running beside a newer one |
| Producers.OpenScansPileUp | internal/api/handlers_scans.go:78-102 | manual scans do not look for an open one: from any state an image can get two |
| Listener.StartsOnCompletionOnly | internal/enrichment/start.go:60-65 | of the published payloads, which share one event name, exactly the completions start an enrichment |
| Listener.StartsIff | internal/enrichment/start.go:60-65 | a payload starts an enrichment exactly when its event and its status are "scan.completed" and "completed" in any letter case |
| Listener.EnrichesFinalFindingsOnce | internal/enrichment/start.go:40-74 | at most one published event a scan starts enrichments, in each subscriber one; the scan is completed by then, and they read the findings it has for good |
| Persist.PersistScanResults | internal/db/persist_scan.go:16-195 | all or nothing: success if and only if every row fits the schema and no statement fails; then the database is exactly the committed one, and each counter of the scan is the number of results whose severity is that name in any letter case, with any white space around it, or, for the last one, none of the names |
| Tables.SeverityIff | internal/db/findings.go:77-84 | a severity text is stored as critical, high, medium or low if and only if it is that name in any letter case with any white space around it, and as unknown otherwise |
| Persist.FitsIff | internal/db/persist_scan.go:41-154 | a result fits the schema if and only if ids have at most 255 characters and no layer digest of a package or secret, no resolution and no title of a secret is blank (and, without a scan row, there is nothing to store) |
| Persist.StoredRows | internal/db/persist_scan.go:41-154 | one row a result, in order, each column the result's own text or number, NULL exactly where that is blank or zero, the severity as above, placeholder names for missing ones, and a document for each SBOM that came |
| Persist.CommitCounts | internal/db/persist_scan.go:201-218 | after a commit each counter is the number of results with that severity |
| Persist.BlankDigestDoesNotFit | internal/db/persist_scan.go:73-92 | a result with one package without a layer digest never fits |
| Persist.CommitReplaces | internal/db/persist_scan.go:23-154 | after a commit the scan's rows are exactly the result's, and other scans' rows are untouched |
| Persist.CommitRow | internal/db/persist_scan.go:170-192 | the completed row: status, time, cleared message, kept start, counters equal to the histogram, the scanner's version and the image's facts, NULL where there are none |
| Persist.CommitIsIdempotent | internal/db/persist_scan.go:16-195 | repeating a commit changes only the completion time |
| Persist.SendBatch | internal/db/persist_scan.go:42-71 | a batch is rejected exactly at its first row that fails or does not fit, all rows before it being good, and otherwise appends every row in order |
| Persist.InsertRows | internal/db/persist_scan.go:41-136 | the four batches together |
| Persist.ComputeSeverityCounts | internal/db/persist_scan.go:201-218 | the counters are the histogram of the severities that the INSERTs store |
| Persist.VulnResultsToFindingRows | internal/db/persist_scan.go:220-246 | one row a result, in order, with placeholder names |
| Tables.ReplaceRows | internal/db/persist_scan.go:23-37 | DELETE and INSERTs replace one scan's rows and no others |
| ScanDetail.GetScanDetail | internal/db/scans_api_store.go:102-166 | the row as first read, and the counters' view or, when all counters are zero, the suppressed GROUP BY of a later state, since others may run between the two reads; not found only for a scan that is not listed, and an error for a failed read |
| ScanDetail.VisibleIff | internal/db/dashboard_store.go:11-20 | a finding is listed unless an unexpired suppression agrees with its CVE, package and image wherever it names one |
| ScanDetail.DetailIsRawGroupBy | internal/db/scans_api_store.go:123-164 | in every reachable state the answer is the raw GROUP BY of the stored findings: the fallback never changes it |
| ScanDetail.DetailMatchesListIff | internal/db/scans_api_store.go:139-164 | the answer agrees with the suppressed lists if and only if no finding of the scan is suppressed |
| ScanDetail.DetailAcrossCommit | internal/db/scans_api_store.go:106-148 | with a commit between its two reads the answer is still the later raw GROUP BY, exactly when the row was counted or nothing is suppressed |
| ScanDetail.SuppressedFindingOccurs | internal/db/scans_api_store.go:139-164 | a reachable scan whose detail differs from the suppressed lists, and, read across its commit, from the later GROUP BY |
| SchedulerLock.LockOutlivesJobIff | internal/scheduler/lock.go:20-30 | for positive int64 intervals the TTL reaches the job timeout if and only if the interval is at least 8000 s and nine intervals do not wrap below 72000 s |
| SchedulerLock.LockTTLOf | internal/scheduler/lock.go:20-30 | a minute without an interval, and else nine tenths of it rounded down, but at least 2 s |
| SchedulerLock.JobTimeoutOf | internal/scheduler/tasks.go:19-32 | the interval, but at least 30 minutes and at most 2 hours |
| SchedulerLock.LockStore.TryLock | internal/scheduler/lock.go:13-18 | SET NX with a TTL of at least one second |
| SchedulerLock.LockStore.RunJobs | internal/scheduler/run.go:66-102 | the attempts of all replicas start exactly the jobs of Starts |
| SchedulerLock.StartsAreSpaced | internal/scheduler/lock.go:13-18 | successive starts of a task are at least a TTL apart |
| SchedulerLock.StartsInWindow | internal/scheduler/run.go:66-102 | a window of length T holds at most T / TTL + 1 starts, over any number of replicas |
| SchedulerLock.JobsExcludeEachOtherIff | internal/scheduler/run.go:66-102 | jobs that stop by their deadlines never overlap, in any schedule, if and only if the interval condition holds |
| SchedulerLock.TwoReplicasOverlap | internal/scheduler/tasks.go:19-32 | otherwise two replicas' jobs overlap |
| RegistrySync.ExactReconciliation | internal/scheduler/tasks.go:34-80 | after an error-free pass each key is active exactly if last listed, gone with its repository, or else as before |
| RegistrySync.ActiveEqualsListing | internal/scheduler/tasks.go:54-77 | with all tag lists there, the active keys of a registry with a non-empty listing are the listing |
| RegistrySync.ImageTable.UpsertImage | internal/db/registries_store.go:119-139 | touches an active row's last_seen_at or inserts a row, and nothing else; an error may hide either |
| RegistrySync.ImageTable.SoftDeleteImageTagsNotIn | internal/db/scheduler_store.go:12-23 | soft-deletes exactly the active rows of the repository whose tag is not kept; an error may hide it |
| RegistrySync.ImageTable.SoftDeleteImagesForRepositoriesNotIn | internal/db/scheduler_store.go:25-37 | soft-deletes exactly the active rows of repositories not listed, and nothing for an empty list; an error may hide it |
| RegistrySync.ImageTable.UpdateImageDigest | internal/db/scheduler_store.go:188-194 | moves the digest of one active row only |
| RegistrySync.RunRegistrySync | internal/scheduler/tasks.go:34-80 | a clean pass is AfterSync on sets of keys, and has set last_seen_at of every listed image to its time (if no key was active twice); any pass, under any failures with or without effect, makes Progress: ids and keys stay, uniqueness of active keys stays, only listed keys appear, only omitted ones go, and no time but its own is written |
| RegistrySync.SafeUnderFailure | internal/scheduler/tasks.go:46-78 | under any failures, with or without effect, no listed image is deleted, a repository without a tag list keeps its rows, a registry that does not answer is unchanged |
| RegistrySync.CleanPassSettles | internal/scheduler/tasks.go:34-80 | after a clean pass the table shows what is listed and nothing that is omitted |
| RegistrySync.SecondPassChangesNothing | internal/scheduler/tasks.go:34-80 | a second pass against the same answers adds and deletes nothing, however it fails |
| UpsertRace.MoveKeepsUniqueIff | internal/db/registries_store.go:119-139 | a statement of any actor keeps at most one active row a key if and only if it is not an INSERT whose SELECT found none and whose key has one by now |
| UpsertRace.RunKeepsUniqueIff | internal/db/registries_store.go:119-139 | a run of any actors' statements never shows two active rows of a key if and only if none of its inserts is late |
| UpsertRace.UndisturbedUpsert | internal/db/registries_store.go:119-139 | with no other statement in between, an upsert is never late and does what ImageTable.UpsertImage promises |
| UpsertRace.TwoAtOnce | internal/db/registries_store.go:122-138 | two upserts of one new key whose SELECTs come first leave two active rows |
| Rescan.EnqueueScheduledScan | internal/scheduler/tasks.go:191-217 | beside any other actors: one insert at most, for an image found idle, and nil means the image was busy at some time; alone: nil means it is busy now and any new scan has its job, and one open scan an image is kept; without faults the only error is an image that cannot be scanned |
| Rescan.GainTransitive | internal/scheduler/tasks.go:82-143 | passes compose: one new scan an idle image at most, old rows and old list entries stay, new jobs carry their own image's reference |
| Rescan.GainKeepsOneOpen | internal/scheduler/tasks.go:191-198 | whatever a pass gains, it keeps at most one open scan an image |
| Rescan.GainedExactly | internal/db/scheduler_store.go:50-60 | if all candidates end busy, exactly the idle ones gained a scan |
| Rescan.OneJobPerNewScan | internal/scheduler/tasks.go:207-213 | new scans and new list entries match one to one |
| Rescan.PassTurn | internal/scheduler/tasks.go:90-100 | turns of a pass compose: its inserts are for its candidates, each idle at its check, and alone the pass gains no more than idle candidates |
| Rescan.PassEnds | internal/scheduler/tasks.go:82-143 | an undisturbed pass alone leaves all candidates busy and gave a scan, with its job, to exactly the idle ones |
| Rescan.ListStale | internal/db/scheduler_store.go:62-93 | lists each active image without a completed scan, or whose last one ended before the cutoff, once |
| Rescan.StaleIff | internal/db/scheduler_store.go:62-93 | in a reachable state an image is stale if and only if all its completed scans ended before the cutoff |
| Rescan.RunPeriodicRescan | internal/scheduler/tasks.go:82-100 | a protocol run; beside any other actors its inserts are for images stale at its listing and idle at their check, one an image, and a clean pass saw every stale image busy; alone, a clean pass gives a scan to exactly the idle stale images |
| Rescan.LastScan | internal/db/scheduler_store.go:105-109 | the maximum completion time over an image's completed scans |
| Rescan.ListTargets | internal/db/scheduler_store.go:103-124 | every target that is not deleted, with its image's last scan |
| Rescan.DueByLast | internal/scheduler/tasks.go:118-124 | the test on the last scan is the one over all completed scans |
| Rescan.DueAfterHours | internal/scheduler/tasks.go:118-124 | a target every w hours is due if and only if it is not deleted and every completed scan of its image ended more than w hours ago |
| Rescan.RunTargetRescan | internal/scheduler/tasks.go:102-152 | a protocol run; beside any other actors its inserts are for images of due targets, idle at their check; alone, a clean pass gives a scan to exactly the idle ones, one each even when targets share the image |
| Durations.ParseTermsIff | internal/scheduler/tasks.go:145-152 | the terms of a duration are the only valid ones that print to it |
| Durations.FrequencyAcceptedIff | internal/scheduler/tasks.go:145-152 | a frequency is accepted if and only if it is blank, a bare zero, or a signed list of numbers with units whose total fits int64 |
| Durations.UnitValues | internal/scheduler/tasks.go:145-152 | a whole number with a unit is that many times 1, 1e3, 1e6, 1e9, 60e9 or 3600e9 nanoseconds, for each spelling of the units |
| Durations.BlankIsADay | internal/scheduler/tasks.go:145-148 | a blank frequency is 24 hours |
| Durations.SignedOf | internal/scheduler/tasks.go:145-152 | a total of nanoseconds is a duration up to 2^63 - 1, and its negative down to -2^63 |
| Durations.SevenDaysRefused | internal/scheduler/tasks.go:145-152 | the "7d" of the comment is an error |
| Durations.DaysAreRefused | internal/scheduler/tasks.go:145-152 | every frequency with a "d" in it is an error |
| Rescan.DayTargetsAreNeverDue | internal/scheduler/tasks.go:118-124 | a target with such a frequency is never due, however old its last scan is |
| ChangeDetection.RunChangeDetection | internal/scheduler/tasks.go:154-189 | beside any other actors its inserts are for changed images, idle at their check, and a digest moves only for an image that was busy at some time, to the remote value; a clean pass leaves every digest up to date, and alone gives new scans to exactly the changed idle images |
| ChangeDetection.CheckImage | internal/scheduler/tasks.go:167-187 | one image's turn: the digest moves only after the enqueue returned nil, for an image that was busy at some time |
| ChangeDetection.SameDigestIff | internal/scheduler/tasks.go:219-221 | two digests agree if and only if, without white space around them, they have the same length and the same characters up to letter case; without white space and capital letters, only if they are equal |
| ChangeDetection.ChangedIff | internal/scheduler/tasks.go:177-180 | a pass takes an image for changed if and only if it can be scanned and has no digest or one that differs so from the answer |
| ChangeDetection.IdleChangeIsScanned | internal/scheduler/tasks.go:181-186 | a clean pass alone gives an idle image with a new digest a pending scheduled scan, and stores that digest |
| ChangeDetection.IdleChangeOccurs | internal/scheduler/tasks.go:177-186 | a reachable state with such an image, for any two different plain digests |
| ChangeDetection.BusyChangeGoesUnscanned | internal/scheduler/tasks.go:181-198 | a changed image that was busy has its digest advanced by a clean pass and gains no scan of the new content |
| ChangeDetection.BusyChangeOccurs | internal/scheduler/tasks.go:181-198 | a reachable state with such an image |
| ChangeDetection.SecondDetectionDoesNothing | internal/scheduler/tasks.go:154-217 | a later pass against the same digests, beside any other actors and however it fails, inserts no scan and moves no digest |
| ChangeDetection.ListScannable | internal/db/scheduler_store.go:138-163 | every active image of an active registry, once |
| ImageRef.ParseBuildIff | internal/api/handlers_adhoc.go:22-54 | the parser undoes the printer if and only if the host looks like a registry and does not begin with white space, the tag is trimmed and colon-free, the repository is clean, and it is not a one-segment docker.io name |
| ImageRef.ParsePrintParseIff | internal/imageref/imageref.go:8-24 | parse-print-parse is parse if and only if the parsed repository and tag have nothing to trim |
| ImageRef.ParseBuildWithoutHost | internal/imageref/imageref.go:17-22 | when the URL has no host, the tag is read back if and only if it has no colon and a repository comes before it (or it is the default), and the repository alone gives the rest |
| ImageRef.PullRefOf | internal/imageref/imageref.go:8-24 | host, repository and tag of a pull reference, for every URL, repository and tag: without white space around them and slashes around the repository, and with the host of the URL as it is or, without a scheme, of "https://" and the URL |
| Catalog.RefsIff | internal/db/scheduler_store.go:138-163 | exactly the images that are not deleted, of registries that are not deleted, have a pull reference, built from their own columns |
| ImageRef.ParsedShape | internal/api/handlers_adhoc.go:26-53 | a parsed host looks like a registry, a parsed tag has no colon, a parsed docker.io repository has a namespace |
| ImageRef.ParseUntaggedIff | internal/api/handlers_adhoc.go:22-54 | an untagged reference is read as its host, its repository and "latest" if and only if the host looks like a registry without a port, the repository has no colon, and it is not a one-segment docker.io name |
| ImageRef.ParseTrims | internal/api/handlers_adhoc.go:24 | white space around a reference makes no difference |
| ImageRef.UntaggedBareName | internal/api/handlers_adhoc.go:29-51 | an untagged name without a slash is an official docker.io image |
| ImageRef.PortIsTakenForTag | internal/api/handlers_adhoc.go:26-31 | what an untagged reference to a host with a port is read as, for every such host, port and repository |
| AuthChallenge.SplitAuthParams | internal/registry/v2.go:252-270 | the trimmed pieces of the specification |
| AuthChallenge.CutExactlyAtOpenCommas | internal/registry/v2.go:257-265 | the pieces end exactly at the commas preceded by an even number of quotes |
| AuthChallenge.PiecesRebuild | internal/registry/v2.go:254-269 | the untrimmed pieces joined by commas are the input up to an empty last piece |
| AuthChallenge.PiecesOfJoin | internal/registry/v2.go:252-270 | splitting undoes joining of pieces with balanced quotes that guard their commas |
| AuthChallenge.ParseWwwAuthenticate | internal/registry/v2.go:227-250 | the loop computes ParseChallenge |
| AuthChallenge.OtherSchemes | internal/registry/v2.go:230-233 | a header that does not begin with "bearer" and a space, in any letter case and after any white space, gives nothing |
| AuthChallenge.ParseUndoesPrint | internal/registry/v2.go:227-250 | parsing undoes printing of any list of parameters, for quoted values that may hold commas, equals signs and white space but no quote |
| AuthChallenge.FoundInAnyOrder | internal/registry/v2.go:239-246 | with distinct keys each value is found wherever its parameter stands |
| AuthChallenge.MissingIsEmpty | internal/registry/v2.go:229-249 | a key that no parameter has is empty |
| Epss.Deduplicate | internal/enrichment/epss.go:29-37 | the entries that have no equal before them |
| Epss.DistinctKeepsOrder | internal/enrichment/epss.go:29-37 | de-duplication keeps the set and the order of first occurrences |
| Epss.ChunksPartition | internal/enrichment/epss.go:45-50 | the chunks concatenate to the list, hold 1 to 100 entries, and are ceil(n / 100) in number |
| Epss.FetchEpssBatched | internal/enrichment/epss.go:20-66 | the merged map is the lookup restricted to the chunks that succeeded before the limiter failed, in at most ceil(n / 100) requests |
| Epss.BatchingIsInvisible | internal/enrichment/epss.go:20-66 | without failures the result is the plain lookup of all requested CVEs |
| Enrichment.ScoreIsUncapped | internal/enrichment/risk.go:3-10 | in range the score lies in [0,100], reaches 100 and 0 exactly at the extreme inputs, and is never altered by the cap |
| Enrichment.ScoreIsMonotone | internal/enrichment/risk.go:14-29 | raising any input never lowers the score, and raises it strictly for the numbers in range |
| Enrichment.ScoreShares | internal/enrichment/risk.go:3-29 | 3 points for each point of CVSS, 30 times the EPSS score, 20 for a catalog entry, 10 for an exploit, 10 for a fix, and in range the parts add up |
| Enrichment.NormalizeIdempotent | internal/enrichment/enricher.go:160-166 | normalising a CVE id twice is normalising it once |
| Enrichment.NormalizeCVEIff | internal/enrichment/enricher.go:160-166 | a text is taken for the CVE id X if and only if it is X in any letter case with any white space around it |
| Enrichment.NoCVEIff | internal/enrichment/enricher.go:160-166 | a text is taken for no CVE if and only if it is no such id in any letter case |
| Enrichment.ValuesAreLocal | internal/enrichment/enricher.go:105-148 | findings with the same CVE, CVSS score and presence of a fix get the same enrichment from any lookups that agree on that CVE: nothing else has any influence |
| Enrichment.RiskOfFinding | internal/enrichment/enricher.go:134-148 | in range a catalog entry adds exactly 30 points, a fix exactly 10, and the score stays within [0,100] |
| Enrichment.ExploitedIffListed | internal/enrichment/enricher.go:117-147 | a finding counts as exploited exactly when its CVE is in the catalog |
| Enrichment.EnrichmentTable.Upsert | internal/db/repository.go:66-93 | one row a finding, replaced in place |
| Enrichment.EnrichScan | internal/enrichment/enricher.go:77-158 | under any failures a finding's row is as before or fixed by the finding and the lookups, and a failed listing changes nothing; after a clean call over answering lookups each finding whose id reads as a CVE has the source's score and percentile, its catalog entry if there is one, and the points they come to, one that reads as none has nothing from outside, and each row has the time of its upsert |
| Enrichment.OrderDoesNotMatter | internal/enrichment/enricher.go:104-154 | the order of the findings makes no difference |
| Enrichment.RedeliveryChangesNothing | internal/db/repository.go:66-93 | a second delivery with the same lookups changes nothing but enriched_at, even if some of its upserts fail |
| Paging.AtoiDecimal | internal/cli/client.go:177-179 | the server's number parser undoes the client's printer up to the largest int64 |
| Paging.ParsePagination | internal/api/pagination.go:8-26 | pages from 1 on, 1 to 100 rows a page, and an exact offset whenever it fits int64 |
| Paging.PageRequested | internal/api/pagination.go:8-26 | page p with n rows is asked for and given, with n cut to 100, for every p and n; without parameters page 1 with 20 rows |
| Paging.ListAllFindings | internal/cli/client.go:167-219 | driven through the server's paging, the loop returns the first 1,000,000 rows once and in order, which is the whole list if and only if there are no more; it fails exactly when a request fails |

## Left out

- Committing: a COMMIT that reports an error is taken to have rolled back.
- Postgres: each statement is one atomic step; isolation levels, SQL parsing, the range of numeric columns (a refused
  value is one of the failures a contract allows), JSON validity of SBOMs, cascading deletes, generated row ids and
  creation times of result rows.
- Redis: a push adds at most one list entry. The Go client repeats a command whose reply was lost, and
  `internal/db/redis.go:13-23` leaves that default on, so a repeated push could list a scan twice; `Fifo`,
  `JobConservation` and `CompletedIsFinal` rest on the assumption that it does not. Delivery of pub/sub messages and the
  millisecond truncation of a lock's TTL are left out; a phase key may expire at any time.
- Liveness: a popped job is not acknowledged and a failed push strands a pending row, so the code does not promise that
  every scan finishes; `Guarantees.QueuedCanComplete` says that it can.
- Registry credentials inside a job and the payload format of a job; a job is its scan id and pull reference.
- Trivy, registry connectors, the EPSS and KEV services and `url.Parse` appear as parameters, and so does the value of a
  fraction in a duration, which the Go library computes in floating point.
- The scan, image and registry listings of the API, HTML and SARIF reports, suppression and target CRUD, dashboards,
  MinIO, migrations, webhook authentication, HTTP request decoding and response shaping.
- `createAdhocScan` and `findRegistryByHost`: the producer ends like `Producers.CreateScan`; its parser is `ImageRef`.
- Lower- and upper-casing cover ASCII letters; strings are sequences of characters, not bytes.
- Floating point: scores are real numbers; the rounding of stored scores to DECIMAL columns is left out.
- Message texts of database errors, the scan id inside "scan not found", and the text of the advice that a pull failure's
  message ends with.
- `UpdateScanCompleted`, `BatchInsert*` and the other helpers that no modelled code calls.
- `SoftDeleteRegistry`: two UPDATEs in one transaction, which the reconciliation does not call.
- Runner.WorkerLoop: runs for any given number of turns, since a loop without end cannot be stated here. Which payloads
  decode, what the scanner answers and which scanner version is probed are parameters, for each job and attempt.
- RegistrySync.RunRegistrySync: no other actor upserts images while a pass runs; `UpsertRace` is about that race. One
  time stands for the clock during a pass.
- Rescan.RunPeriodicRescan: the images and registries tables do not change during a pass, and other actors run between
  its calls to Postgres and Redis, not between the statements of one listing.
- Rescan.RunTargetRescan: as above; the saturation of a time difference beyond 292 years is left out.
- ChangeDetection.RunChangeDetection: as above; each image's digest is one answer for the whole pass.
- Listener.EnrichesFinalFindingsOnce: several subscribed enrichers each start one enrichment; `RedeliveryChangesNothing`
  covers such repeats.
- Producers.CreateScan: the images and registries tables do not change during the handler.
- Paging.ListAllFindings: the rows keep one order and do not change between requests, although findings of a scan tie on
  created_at, the default sort key.
