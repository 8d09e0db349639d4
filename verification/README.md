# NIE-SLA in Dafny

NIE-SLA is a server monitor: an agent in Rust samples its host and reports to a Worker in
JavaScript. This project models the parts of both whose state must survive crashes, late
replies, concurrent callers or re-encoding, and proves what they keep.

Each component is a module. A state machine that several threads or requests share is a
`datatype` of states with a `Step` function and a `Run` over arbitrary sequences of events; what
holds on every run is a lemma about `Run`. Code that updates variables in place is a class or a
method with a loop, proved equal to those functions. Clocks, replies, file-system errors and
crashes are inputs of the steps.

| modules | component |
|---|---|
| `Ledger`, `TelemetryLoop`, `TelemetryDelivery`, `TelemetryAgent` | the agent's sampling loop: bounded queues, uploads, acknowledgements, stalls |
| `QueueCommands`, `QueueFile`, `QueueWriter`, `Recovery` | the writer thread, the queue file, and what a restart finds after a crash |
| `SelfUpdate`, `AgentVersion` | installing, confirming and rolling back the agent's own program |
| `Availability`, `AvailabilityMerge` | the Worker's per-day ledger of online time |
| `RateTable`, `FixedWindow`, `RateLimit` | the durable and the in-memory rate limiter, and the fallback from one to the other |
| `ConfigCache` | layered caches of configuration values |
| `Tokens` | one-time tokens consumed by compare-and-swap |
| `Wire`, `TelemetryProto`, `TelemetryDecode`, `TelemetryStandard` | the Protocol Buffers encoder of reports, the Worker's decoder, and a decoder of the wire format |
| `PingSeries`, `PingArrival` | delta-encoded ping series, their reader, and both across the wire |
| `Dns` | the agent's DNS query and answer parser (RFC 1035) |
| `SemVer` | the Worker's version order (Semantic Versioning 2.0.0) |
| `Outbox`, `TailBuffer` | undelivered results of remote tasks, and the end of their output |
| `Telemetry`, `Strings`, `Wrappers` | shared types and text helpers |

`dafny verify dfyconfig.toml` checks everything.

## Where the code falls short of its promise

Each of these is stated exactly, with the condition under which it happens or a lemma or a method
that gives the input.

- A batch is dropped by count when its reply arrives. If the queue evicted samples while the
  upload was in flight, the count reaches past the batch and unsent samples go, exactly then
  (`Ledger.AcknowledgeLosesIffEvictedMeanwhile`; of whole runs
  `TelemetryLoop.AcknowledgementsLoseIff`, and reachable, `TelemetryLoop.EvictionDuringUpload`).
- The writer saves queues that the next start refuses to load: full ones, with a capacity the
  configuration allows, are above 64 MiB (`QueueWriter.FullQueueIsLost`). Samples without a
  positive timestamp do not survive a reload either (`QueueFile.LoadAfterSave`).
- The writer's dirty flag says nothing before the first command
  (`QueueWriter.CleanAtStartProvesNothing`; exactly when, `QueueWriter.CleanMeansSaved`), and
  until the first save an accepted sample can come back (`Recovery.FirstSaveMatters`).
- Self-update can lose the last copy of the program. Every operation keeps one while a program
  stands under the installed name, wherever it is cut off (`SelfUpdate.InstalledIsSafe`). That
  name is left empty when an installation or a rollback stops between its two renames, by a crash
  or because undoing the first fails as well, and then the next installation or the next report
  deletes the only copy (`SelfUpdate.SecondAttemptDeletesTheLastCopy`,
  `SelfUpdate.ReportAfterCrashDeletesTheLastCopy`). `SelfUpdate.Loses` says exactly when, of each
  operation, and `SelfUpdate.Installation.Lifecycle` of every sequence of them.
- After a rollback the agent executes the path of its own image, which by then is the program it
  has just set aside, so the previous program runs only if the two are the same
  (`SelfUpdate.Installation.Start`).
- The installer derives the backup's name from the program's, rollback uses a fixed one; they
  agree exactly for the default name (`SelfUpdate.BackupNamesAgree`).
- Two targets without a public address whose ids sanitise to the same text overfill a day, no later
  than two days after they were created, and nothing else does (`AvailabilityMerge.NeverFullIff`,
  `AvailabilityMerge.TwoEligibleOverfill`).
- The in-memory limiter sweeps all keys with the window of whoever calls, so calls with a shorter
  window reset counters that still run (`FixedWindow.ShorterWindowForgets`; exactly when this is
  noticed, `FixedWindow.SweepInvisibleIff`).
- The hourly cleanup forgets rows a window of more than an hour would still count; no caller uses
  one (`RateTable.LongerWindowForgets`, `RateTable.SafeIffCovered`).
- `retryAfter` is too early when a caller with a later clock is admitted between the two statements
  of a status, and for a limit of 0, which is never admitted (`RateTable.AdmissionMeanwhile`;
  exactly when, `RateTable.AdmittedAtRetryIff`).
- The Worker's decoder rejects numbers above 2^53 - 1 and doubles that are not finite, which the
  encoder can send (`TelemetryDecode.ReportRoundTrip`).
- A result the server turns down is meant to be given up, and one it is too busy for to be sent
  again. The client turns every error of a request into a message, so the runner finds no status
  among its causes: no result is ever given up (`Outbox.NeverGivenUp`), and one that is turned down
  for good keeps the runner from claiming any task again (`Outbox.TurnedDownBlocks`). A status is
  found exactly when it is among the causes (`Outbox.TerminalTaskStatus`), and then any counts.
- A damaged result whose file cannot be renamed does not stop new work from being claimed
  (`Outbox.FailedRenameFillsBothSlots`; exactly when, `Outbox.DisciplinedIff`).

## Model

| member | source | states |
|---|---|---|
| `TelemetryLoop.LossAccounting` | agent/src/main.rs:577-806 | On every run, with stalls, late, missing and reordered replies: each queue is its history from `head` on, accepted batches are disjoint and in order, elements gone without being in an accepted batch number exactly the evictions, and with no eviction the accepted batches and the queue tile the history |
| `TelemetryDelivery.AcceptedAreSuccesses` | agent/src/main.rs:587-666 | On every run and for each queue: what was accepted, and acknowledged to the writer, is exactly the batch of each upload whose success was read while it was the current one, in that order, none twice, each answered by its thread as taken by the server |
| `TelemetryDelivery.FailuresLoseNothing` | agent/src/main.rs:654-664 | While no thread has answered with success nothing is accepted or acknowledged, and nothing leaves a queue but for lack of room |
| `TelemetryDelivery.FailuresAreCounted` | agent/src/main.rs:654-664 | On every run the failure count is the failures read while current since the last success |
| `TelemetryDelivery.OneRound` | agent/src/main.rs:596-790 | From any reachable state a report that starts, its answer and the reading of it take off each queue its front, up to 900 samples, 5000 pings and 100 proxy checks; if the answer is a failure, nothing |
| `TelemetryDelivery.CommandsAreTold` | agent/src/main.rs:577-737 | On every run the writer was sent exactly each sample, the count of each success and a flush before each restart, in that order; and the first report is outstanding exactly until the first upload |
| `TelemetryDelivery.HistoryIsFed` | agent/src/main.rs:577-677 | Each queue's history is the samples taken, or the results of all probes, each once and in order |
| `TelemetryDelivery.EveryProbeGoesIn` | agent/src/main.rs:668-677 | Each batch of probe results goes in whole, behind all earlier ones and before all later |
| `TelemetryDelivery.NothingEvictedWithinCapacity` | agent/src/main.rs:583-687 | On every run a queue that was never fed more than it can hold has evicted nothing |
| `TelemetryDelivery.EvictsTheOldest` | agent/src/main.rs:678-687 | Room is made by the oldest alone, and no more than is needed |
| `TelemetryDelivery.GrownForTheInterval` | agent/src/main.rs:668-677 | The ping queue is grown to hold as many rounds as fit into the report interval, and two more, up to 10000 pings |
| `TelemetryDelivery.AfterFailure` | agent/src/main.rs:2931-2952 | After a failure nothing has left a queue, and the next report starts exactly with a sample to send and after one minute, doubled with each further failure, a quarter of an hour at most |
| `TelemetryDelivery.AfterSuccess` | agent/src/main.rs:2931-2945 | After a success the next starts exactly for a backlog of more than 900 samples or when the interval is over, the one the server asked for between 10 seconds and an hour |
| `TelemetryDelivery.FirstReportStarts` | agent/src/main.rs:2931-2945 | The first report starts at once |
| `TelemetryDelivery.StalledUploadIsReplaced` | agent/src/main.rs:737-790 | An upload without an answer keeps the next report from starting until three minutes are over, and no longer |
| `TelemetryLoop.RunKeepsInv` | agent/src/main.rs:577-806 | Every reachable state is bounded and accounted for, each generation answers at most once, and the current batch can still be acknowledged whole |
| `TelemetryLoop.StepKeepsInv` | agent/src/main.rs:577-760 | Each step of the loop and of any upload thread keeps that |
| `TelemetryLoop.LateReplyIgnored` | agent/src/main.rs:587-666 | Taking every answer of an abandoned upload out of a run, both its sending and its reading, changes none of the queues, accepted batches, commands, intervals and failure counts, and nothing of the current upload, from the start to the end of the run |
| `TelemetryLoop.AcknowledgementsLoseIff` | agent/src/main.rs:577-645 | On every run and for each queue: nothing unsent is lost to an acknowledgement exactly when no accepted batch carries an element evicted before its reply, and the accepted batches leave a gap exactly when anything was evicted |
| `TelemetryLoop.EvictionDuringUpload` | agent/src/main.rs:578-645 | For any capacity, a full queue, a report and one sample before its reply: the sample right behind the batch is gone without having been sent |
| `TelemetryLoop.GrownCapacityBounds` | agent/src/main.rs:668-677 | The ping queue's capacity only grows, and never beyond its maximum |
| `Ledger.AcknowledgeLosesIffEvictedMeanwhile` | agent/src/main.rs:633-645 | Dropping a batch by count removes an element no batch carried exactly when something was evicted between taking the batch and its reply; the loss is the stretch right behind the batch, or behind what was evicted if that reached further |
| `Ledger.LostIsEvicted` | agent/src/main.rs:584-586 | What left a queue without being accepted is as many elements as were evicted |
| `Ledger.TilesWithoutEviction` | agent/src/main.rs:633-645 | Without evictions the accepted batches follow one another with no gap and no repeat up to the head |
| `Ledger.GrowKeepsOpen` | agent/src/main.rs:678-687 | Appending and evicting never make a batch in flight larger than the queue it will be dropped from |
| `TelemetryAgent.Agent.constructor` | agent/src/main.rs:518-564 | The loop starts with the newest loaded samples, empty queues and no upload |
| `TelemetryAgent.Agent.Sample` | agent/src/main.rs:578-585 | Taking a sample appends it, tells the writer, and evicts one from the front above capacity: one step of the model |
| `TelemetryAgent.Agent.Answer` | agent/src/main.rs:781-806 | An upload thread answers once, with the batch and generation it was started with |
| `TelemetryAgent.Agent.AcceptUpload` | agent/src/main.rs:596-652 | A reply that succeeded resets the failure state and drops all three batches |
| `TelemetryAgent.Agent.DropBatch` | agent/src/main.rs:2887-2899 | The three queues lose the batch's counts from the front, never more than they hold, and the writer is told the count |
| `TelemetryAgent.Agent.ReceiveReply` | agent/src/main.rs:587-666 | One reply read from the channel is one step; only a success of the current upload takes anything off a queue, and any reply of it ends the upload and resets or raises the failure count |
| `TelemetryAgent.Agent.DrainReplies` | agent/src/main.rs:587-666 | Reading until the channel is empty is the run of one step per reply that was in it, and leaves none |
| `TelemetryAgent.Agent.DrainProbes` | agent/src/main.rs:668-687 | Probe results are appended and both queues trimmed to their newest |
| `TelemetryAgent.Agent.ExtendQueues` | agent/src/main.rs:668-677 | All probe batches are appended in order and the ping capacity grows with each |
| `TelemetryAgent.Agent.RecoverStall` | agent/src/main.rs:737-743 | An upload past the stall limit is abandoned, nothing else changes |
| `TelemetryAgent.Agent.StartUpload` | agent/src/main.rs:745-790 | An upload starts exactly when none is live and a report is due, carrying the front of each queue, and is recorded under a new generation |
| `TelemetryLoop.CommandsMirrorLoop` | agent/src/main.rs:528-643 | Replaying the commands sent so far from the same start gives the loop's deque, history, evictions and acknowledgements, on every run |
| `TelemetryLoop.StepKeepsMirror` | agent/src/main.rs:577-643 | Every step keeps the loop and the commands in agreement |
| `QueueCommands.ReplayIsStretch` | agent/src/queue.rs:244-291 | Replaying commands leaves one contiguous stretch of the history, short only of what was acknowledged or evicted |
| `QueueCommands.ReplayAdvances` | agent/src/queue.rs:257-272 | Later commands only extend the history and move its start forward |
| `QueueCommands.ReplayConcat` | agent/src/queue.rs:244-291 | Replaying two stretches of commands is replaying one after the other |
| `QueueFile.ParseRender` | agent/src/queue.rs:112-155 | The bytes of a file written element by element parse to the same samples |
| `QueueFile.TornFileIsRejected` | agent/src/queue.rs:112-155 | Cut after any byte, inside a sample or between two, a written file does not parse, so it is never taken for a shorter queue |
| `QueueFile.LoadAfterSave` | agent/src/queue.rs:68-110 | A saved queue loads back unchanged exactly when its bytes are within 64 MiB and every timestamp is positive; a larger file is refused whole, and otherwise only samples without a positive timestamp are missing |
| `QueueFile.ManySamplesAreOversized` | agent/src/queue.rs:68-82 | Whatever the samples are, 370768 of them are above the limit of a reload |
| `QueueFile.QueueStore.Save` | agent/src/queue.rs:112-155 | A save succeeds exactly when no operation fails, is without effect on the queue's name if one up to the rename fails, and not known durable if only the last does; at no point in between can a crash leave under that name anything but the old contents or the complete new one, and no temporary file stays |
| `QueueFile.QueueStore.WriteTemp` | agent/src/queue.rs:122-148 | Nothing written to the temporary file shows under the queue's own name, and a complete array is reported exactly when no operation fails |
| `QueueWriter.RunKeepsInv` | agent/src/queue.rs:244-291 | On every run of the writer each content a crash can leave is the deque after some number of its commands, in order |
| `QueueWriter.CleanMeansSaved` | agent/src/queue.rs:250-291 | On every run, when nothing is dirty the current file holds the deque if and only if a command ever came or the file held the initial deque to begin with |
| `QueueWriter.SavedInTime` | agent/src/queue.rs:257-291 | On every run in which saving works, whatever a crash leaves reflects every acknowledgement and flush received, unsaved samples are younger than ten seconds after the save before, and nothing is unsaved once the channel was closed |
| `QueueWriter.DueSaveSaves` | agent/src/queue.rs:286-289 | Whatever failed before, a save that is due and works leaves the file as the deque |
| `QueueWriter.CleanAtStartProvesNothing` | agent/src/queue.rs:250-251 | At the very start the flag is down whatever the file holds |
| `QueueWriter.FullQueueIsLost` | agent/src/queue.rs:68-82 | A queue of any capacity from 370768 on, where 604800 is allowed, once full is saved, reported clean, and refused by the next start |
| `QueueWriter.WriterThread.Handle` | agent/src/queue.rs:257-279 | One command updates the deque, the flag, the flush time and the file as the model says |
| `QueueWriter.WriterThread.SaveNow` | agent/src/queue.rs:302-311 | A save lowers the flag exactly when it succeeded, and then the file is the deque |
| `QueueWriter.WriterThread.PeriodicSave` | agent/src/queue.rs:286-289 | Unsaved changes are saved once the flush interval is over |
| `QueueWriter.WriterThread.Close` | agent/src/queue.rs:280-284 | A closed channel saves what is unsaved once more |
| `Recovery.RunKeepsSystemInv` | agent/src/main.rs:460-643 | From any file at start and in every interleaving of loop and writer, the writer has consumed a prefix of what the loop sent and both keep their invariants |
| `Recovery.ChannelMirrors` | agent/src/queue.rs:257-272 | Folding the commands still in the channel over the writer's deque gives exactly the loop's deque |
| `Recovery.CrashRecovers` | agent/src/queue.rs:68-155 | After the first successful save, whatever a crash leaves is one stretch of the history at some command count no earlier than that save: nothing whose acknowledgement was saved is in it, nothing unacknowledged and unevicted is missing, and a start loads it, but for samples without a positive timestamp, exactly when it is not too large |
| `Recovery.FirstSaveMatters` | agent/src/queue.rs:250-289 | Before the first successful save it is not so: a sample loaded from the file, reported and accepted is loaded again after a crash |
| `Recovery.LivesLose` | agent/src/queue.rs:54-155 | Over any number of starts and crashes, with any of the contents a crash can leave surviving each: what is loaded in the end is what was loaded at first and what each process had taken by its surviving save, in order, without the oldest of them, as many as were trimmed at a start, acknowledged or evicted by those saves or, once a file was too large, all; nothing is missing from the middle |
| `Recovery.LivesKeepOrder` | agent/src/queue.rs:54-155 | So they are samples of the first file or taken since, in the order they were taken, none twice |
| `SelfUpdate.Installation.Install` | agent/src/updater.rs:536-638 | By the installed program it succeeds exactly when all checks pass and each move is performed without error; then the downloaded program, reporting the wanted version, is in place with a marker, and the one it replaced at the backup. Cut off after any operation, an executable is left except in exactly the case of an installation that finds nothing under the installed name and gets past its checks; the installed name is left empty exactly when it stops between its two renames or fails to undo the first |
| `SelfUpdate.Installation.Replace` | agent/src/updater.rs:620-636 | The part that moves programs, with the same two exact conditions |
| `SelfUpdate.Installation.Prepare` | agent/src/updater.rs:536-619 | Only a download that passed every check, was written whole and reports the right version counts as ready; nothing else is touched |
| `SelfUpdate.Installation.UpdateOnce` | agent/src/updater.rs:242-292 | The running program updates exactly when the decision is to install and the installation succeeds; its file is then one strictly newer; what is lost is what the installation loses |
| `SelfUpdate.Installation.Confirm` | agent/src/updater.rs:399-421 | Confirming succeeds exactly when the marker and its removal are durably gone, or there was none; it leaves the installed program; an error in removing the marker or in syncing its directory keeps the backup, whether or not the marker is gone; it loses the last copy exactly when nothing is installed, a backup and a marker are, and both removals are performed without error |
| `SelfUpdate.Installation.RollbackStale` | agent/src/updater.rs:426-470 | By the installed program a rollback happens exactly when its marker is unreadable or half an hour old, the backup and it are there, no link is in the way, and the renames and the marker's removal are performed; it puts exactly the backup in place; a fresh marker or none changes nothing; an exact condition says when no executable is left |
| `SelfUpdate.Installation.SwapBack` | agent/src/updater.rs:458-467 | The failed program is set aside and the backup restored, exactly when both are there and both renames performed, or the first step is undone |
| `SelfUpdate.Installation.Start` | agent/src/main.rs:460-464 | A start rolls back under exactly those conditions; the program that is executed next is the file just set aside, so the previous program runs again exactly if it is the same as the failed one |
| `SelfUpdate.Installation.RollbackFailed` | agent/src/manager.rs:394-411 | The manager's rollback succeeds exactly when both programs are there, no link is in the way and each step is performed, and restores exactly the backup; no error and no cut lose an executable |
| `SelfUpdate.Installation.RunWatchdog` | agent/src/manager.rs:267-302 | Confirmed exactly when the version can be put into canonical form and one of 36 polls saw it; otherwise the previous program is restored when the operations succeed; a confirmation removes the last copy exactly when nothing is installed |
| `SelfUpdate.Installation.Perform` | agent/src/updater.rs:399-638 | Any one operation, by a process wherever its image is, with any errors and cut off after any file operation, leaves an executable exactly unless the stated condition holds |
| `SelfUpdate.Installation.Lifecycle` | agent/src/updater.rs:399-638 | Any sequence of such operations, each going on from what the last one left: every one keeps an executable if and only if its condition does not hold, up to the first that loses it; and while none may roll back and each update of the installed program is by a process that runs it, whatever is installed later is the same program or strictly newer |
| `SelfUpdate.SecondAttemptDeletesTheLastCopy` | agent/src/updater.rs:626-636 | Two failed renames and one more attempt: no complete executable is left |
| `SelfUpdate.ReportAfterCrashDeletesTheLastCopy` | agent/src/updater.rs:399-421 | A process cut off between the two renames of an installation, and one report by another: no operation failed, and no executable is left |
| `SelfUpdate.BackupOfBackupIsItself` | agent/src/updater.rs:597-599 | Deriving a backup path from the backup gives the backup, so an installer running from it deletes itself |
| `SelfUpdate.BackupNamesAgree` | agent/src/updater.rs:406-408 | Installer and rollback mean the same backup file exactly for the default program name |
| `AgentVersion.NewerIff` | agent/src/updater.rs:310-325 | Of any two version texts, leading `v`s and zeros or not, one is newer exactly when it has the larger number in the first group that differs |
| `AgentVersion.InstallsIff` | agent/src/updater.rs:122-292 | A version is installed exactly when it is the instance's and newer than the running one, or the official one, newer, and the instance's is not; with updates on, no job running and no privileged manager responsible |
| `AgentVersion.InstallsOnlyNewer` | agent/src/updater.rs:188-292 | Whatever the instance or the official channel says, only a strictly newer version is installed, never under a running job or a privileged manager |
| `AgentVersion.NewerChainAscends` | agent/src/updater.rs:310-325 | Versions that are each newer than the last never return to an earlier one |
| `AgentVersion.ReadsWritten` | agent/src/updater.rs:314-325 | Three groups of digits within 64 bits, with or without leading `v`s, are read as their numbers |
| `AgentVersion.ReadsOnlyVersions` | agent/src/updater.rs:314-325 | What is read as a version is three groups of digits, each with an optional plus sign and within 64 bits |
| `AgentVersion.CanonicalIff` | agent/src/manager.rs:267-278 | The watchdog accepts exactly one optional `v` and three groups of digits, and then expects exactly one `v` |
| `Availability.AddInterval` | worker/src/agent-availability.js:98-114 | Splitting adds to every day exactly the seconds of the interval that fall on it, and touches no other |
| `Availability.AgentAvailabilitySegments` | worker/src/agent-availability.js:5-19 | Between two reports each day gets its seconds within the retention, and online those within the threshold |
| `Availability.AvailabilityTable.Record` | worker/src/agent-availability.js:21-45 | Recording adds the segments of one agent and purges its days behind the retention on a change of day; other agents keep theirs |
| `Availability.AvailabilityTable.Upsert` | worker/src/agent-availability.js:27-36 | Stored days are added to, others inserted |
| `Availability.AvailabilityTable.DeleteBefore` | worker/src/agent-availability.js:42-43 | Only the agent's days before the cutoff go |
| `Availability.LedgerIsExact` | worker/src/agent-availability.js:5-45 | After any increasing reports with gaps within the retention, each day not purged holds exactly the seconds of the reported span on it, and its online seconds |
| `Availability.OnlineSecondsAre` | worker/src/agent-availability.js:12-17 | The online seconds counted are the instants less than the threshold after the report before them |
| `Availability.OnlineWithinTotal` | worker/src/agent-availability.js:5-45 | Online never exceeds total, nor total a day |
| `Availability.TotalsSumToSpan` | worker/src/agent-availability.js:5-45 | The totals of the days kept sum to the reported span |
| `Availability.OverlapSplits` | worker/src/agent-availability.js:98-114 | Cutting an interval in two splits each day's seconds without loss |
| `Availability.OverlapCountsInstants` | worker/src/agent-availability.js:98-114 | The seconds of an interval on a day are its instants of that day |
| `Availability.DayIsLocal` | worker/src/agent-availability.js:98-114 | A day is the 86400 seconds from a midnight of the local clock |
| `Availability.SegmentsExactly` | worker/src/agent-availability.js:5-19 | However long the gap between two reports, what is within the retention counts, and is online up to the threshold |
| `AvailabilityMerge.NeverOverfills` | worker/src/agent-availability.js:47-125 | Stored, live and baseline seconds of one agent and day never exceed a day, nor online the total, when at most one of its targets is without a public address and rows are stored up to the last report |
| `AvailabilityMerge.NeverFullIff` | worker/src/agent-availability.js:47-125 | For any targets and any time at least two days after each was created: no rows, reports and time up to then overfill a day of an agent if and only if at most one target without a public address sanitises to its id |
| `AvailabilityMerge.TwoEligibleOverfill` | worker/src/agent-availability.js:77-96 | Two such targets of one id hold twice a day's seconds on the first whole day after both were created, when the agent reports as it ends, within two days of the later creation |
| `AvailabilityMerge.LedgerRowFits` | worker/src/agent-availability.js:21-45 | What a regular run of reports stores meets that condition |
| `AvailabilityMerge.RegularReportsNeverOverfill` | worker/src/agent-availability.js:21-60 | So of an agent whose stored rows are what its regular reports recorded, no day that is shown is more than a day |
| `AvailabilityMerge.ShownAsIfReported` | worker/src/agent-availability.js:47-60 | Merging at any time shows of each kept day exactly what the table would hold had the agent reported at that time: the seconds since its first report and the online ones among them |
| `AvailabilityMerge.BaselineExact` | worker/src/agent-availability.js:62-96 | A target without a public address shows, of each day before the first stored one, exactly the seconds of its uptime after its creation and within the retention |
| `AvailabilityMerge.FirstStoredIsEarliest` | worker/src/agent-availability.js:62-70 | The day the baseline stops at is the earliest stored one |
| `AvailabilityMerge.MergedExactly` | worker/src/agent-availability.js:47-96 | Of any stored rows, regular reports or not: a day shows the seconds stored of it, those since the last report, and, if nothing is stored up to it, those of the uptime before |
| `AvailabilityMerge.MergeAgentAvailabilityRows` | worker/src/agent-availability.js:47-60 | The merged table is the baseline, the stored and the live rows added up per agent and day |
| `AvailabilityMerge.UptimeBaselineRows` | worker/src/agent-availability.js:62-96 | Baseline days of targets without a public address come from uptime, clipped to creation and retention, before the first stored day |
| `AvailabilityMerge.Merge` | worker/src/agent-availability.js:116-125 | Merging rows accumulates non-negative totals by key |
| `RateTable.SlidingWindow` | worker/src/ratelimit.js:52-71 | No closed interval as long as the window holds more admissions of a key than the limit since the key was last cleared, whatever other keys, statuses and cleanups do, with callers of lower limits and longer windows, and even if statements run out of clock order as long as deletions do not run ahead |
| `RateTable.AdmittedIff` | worker/src/ratelimit.js:52-71 | While deletions spare what it counts, an attempt is admitted exactly when fewer than its limit of the key were admitted since its window began |
| `RateTable.LongerWindowForgets` | worker/src/ratelimit.js:114-124 | For every window longer than the cleanup keeps rows, a limit of one is exceeded within the window |
| `RateTable.SafeIffCovered` | worker/src/ratelimit.js:114-124 | That holds of every run, key and limit exactly for the windows the cleanup covers |
| `RateTable.TableAgrees` | worker/src/ratelimit.js:72-124 | Statuses and cleanups never delete a row a later attempt would count |
| `RateTable.PurgeConcat` | worker/src/ratelimit.js:78-78 | A deletion treats each row by itself, takes exactly those behind the cutoff, and leaves the others in order |
| `RateTable.PurgeLeavesNone` | worker/src/ratelimit.js:78-78 | After it no row behind the cutoff is left |
| `RateTable.CleanupLeavesAnHour` | worker/src/ratelimit.js:114-124 | After a cleanup no row of any key is older than an hour |
| `RateTable.CountWithinLimit` | worker/src/ratelimit.js:79-86 | While no statement carries a later time, the table never counts more than the limit |
| `RateTable.RefusedUntilRetry` | worker/src/ratelimit.js:72-93 | Whatever table the query of a status sees, if it reports the limit reached every attempt before `retryAfter` is refused, whatever statements run meanwhile |
| `RateTable.AdmittedAtRetryIff` | worker/src/ratelimit.js:72-93 | And an attempt at exactly `retryAfter` is admitted if and only if fewer rows than the limit are younger than the oldest one counted |
| `RateTable.AdmittedAtRetry` | worker/src/ratelimit.js:72-93 | On every run whose statements before the query, those between its deletion and the query included, carry no later time: admitted at `retryAfter` if and only if the limit admits anything at all |
| `RateTable.AdmissionMeanwhile` | worker/src/ratelimit.js:72-93 | With a later one between deletion and query the time named can be too early |
| `RateTable.NoWaitIff` | worker/src/ratelimit.js:84-87 | No wait is named exactly when an attempt at once would be admitted |
| `RateTable.OldestFrom` | worker/src/ratelimit.js:79-82 | The oldest counted row is where the count first drops |
| `RateTable.Table.RateLimit` | worker/src/ratelimit.js:52-71 | One conditional insert: admitted exactly when the key's rows in the window are fewer than the limit |
| `RateTable.Table.Status` | worker/src/ratelimit.js:72-93 | A status deletes the key's rows behind the window, lets any other statements run, and reports count, limit and retry time of what its query then finds |
| `RateTable.Table.Query` | worker/src/ratelimit.js:79-87 | Count, limit and retry time of the table as it is |
| `RateTable.Table.CleanUp` | worker/src/ratelimit.js:114-124 | The cleanup deletes rows older than an hour |
| `RateTable.Table.ClearKey` | worker/src/ratelimit.js:96-105 | Clearing a key forgives it its rows and no other key |
| `FixedWindow.SweepInvisibleIff` | worker/src/ratelimit.js:8-20 | On any calls with any windows, limits and times: all calls of a key count as if nothing were ever swept if and only if no sweep, by the window of its caller, removes a counter that the key's next call would have found running by its own |
| `FixedWindow.SweepInvisible` | worker/src/ratelimit.js:16-18 | So in particular on a clock that never runs back, while no call before one of the key has a shorter window |
| `FixedWindow.LessThanTwice` | worker/src/ratelimit.js:8-20 | No closed interval as long as the window holds twice the limit of a key's admissions, one less at most, for callers of the key with lower limits and longer windows, while no sweep removes its counter before the window is over; none does while the isolate has few keys or nobody calls with a shorter window (`FixedWindow.SparedByLongWindowsOrFewKeys`) |
| `FixedWindow.BoundIsReached` | worker/src/ratelimit.js:8-20 | For every positive limit and window a run reaches that bound |
| `FixedWindow.RefusedOnlyWhenSpent` | worker/src/ratelimit.js:8-20 | A call is refused only after as many earlier calls of the key within its window as its limit allows |
| `FixedWindow.ShorterWindowForgets` | worker/src/ratelimit.js:16-18 | With a shorter window it is not: after 10001 keys a spent key is admitted again |
| `FixedWindow.Limiter.Check` | worker/src/ratelimit.js:8-20 | One call charges the key's bucket, or a new one once it expired, sweeps above 10000 keys, and answers by the count |
| `FixedWindow.Limiter.SweepExpired` | worker/src/ratelimit.js:16-18 | The sweep removes exactly the expired buckets |
| `RateLimit.RateLimitD1` | worker/src/ratelimit.js:52-70 | One request is one step of the model: without a database refused, with one decided by its table, and while that fails by the isolate's own limiter |
| `RateLimit.RateLimitStatusD1` | worker/src/ratelimit.js:72-93 | The same of statuses, with an allowance of their own during an outage |
| `RateLimit.LimitAcrossOutages` | worker/src/ratelimit.js:22-70 | Over one sequence of requests to any number of isolates, each with its own database outcome, best-effort ones and statuses included, and under the same condition on sweeps: no interval as long as the window lets through more of a key than the limit once for all and one less than twice the limit for each isolate |
| `RateLimit.OutageBoundIsReached` | worker/src/ratelimit.js:22-70 | For every positive limit and window and any number of isolates a sequence of requests reaches that bound |
| `RateLimit.CrestFits` | worker/src/ratelimit.js:22-70 | And that sequence is in order, of one limit and window, and never swept early, as the bound requires |
| `RateLimit.RunIsProjected` | worker/src/ratelimit.js:52-70 | The table and each isolate's counters after such a run are those of the statements and the calls derived from it |
| `RateLimit.CleanUpCleans` | worker/src/ratelimit.js:114-124 | A cleanup leaves no row older than an hour and the isolates their counters |
| `ConfigCache.BoundedStaleness` | worker/src/config-cache.js:23-76 | Across any isolates, sites, expiries, invalidations, evictions and loads racing updates, an answer was the database's value at some instant within store lifetime + memo lifetime + load + hit time before it |
| `ConfigCache.AdminStaleness` | worker/src/static-assets.js:7-16 | The admin path's own memo adds at most its lifetime |
| `ConfigCache.BoundIsReached` | worker/src/config-cache.js:42-68 | A run with two isolates whose answer is two milliseconds short of that bound, in numbers |
| `ConfigCache.AdminBoundIsReached` | worker/src/static-assets.js:7-16 | A run in which the admin path's answer is three milliseconds short of its bound |
| `ConfigCache.InvalidatedIsReread` | worker/src/config-cache.js:70-75 | From any state, once an isolate's memo and its site's store are invalidated its next request answers with what the database holds when it loads |
| `ConfigCache.RunKeepsInv` | worker/src/config-cache.js:23-76 | Every cached value is one the database held, and stops counting as fresh in time |
| `ConfigCache.TtlSec` | worker/src/config-cache.js:43-43 | The seconds asked for count between 10 and 300, 60 when none are |
| `ConfigCache.SharedConfig.ReadSharedConfig` | worker/src/config-cache.js:42-68 | An undisturbed call answers from the memo while it is fresh, else from the store, else from the loader, and keeps the answer in each layer it passed |
| `ConfigCache.SharedConfig.MemGet` | worker/src/config-cache.js:27-35 | A memo entry answers before its expiry and is forgotten from then on |
| `ConfigCache.SharedConfig.MemSet` | worker/src/config-cache.js:37-40 | Setting replaces the entry and gives it its lifetime from now |
| `ConfigCache.SharedConfig.InvalidateSharedConfig` | worker/src/config-cache.js:70-75 | Invalidating removes the entry from the memo, and from the store if that can be reached |
| `ConfigCache.AdminPath.ResolveAdminPath` | worker/src/static-assets.js:9-16 | The admin path's memo answers while fresh, else is set with its lifetime counted from before the path was resolved |
| `Tokens.EachTokenOnce` | worker/src/admin-auth.js:487-517 | In every interleaving of callers a stored token goes to at most one of them, one that presented it |
| `Tokens.SwapLeavesOthers` | worker/src/admin-auth.js:497-513 | A successful consume returns the first unexpired entry of its token and leaves exactly the other unexpired ones, in order, the newest ten of them |
| `Tokens.UndisturbedSucceeds` | worker/src/admin-auth.js:487-517 | A caller whose token is stored and unexpired, and whom nobody overtakes between reading and swapping, gets it |
| `Tokens.FoundIff` | worker/src/admin-auth.js:498-508 | An entry is found exactly when one of the token is stored and unexpired |
| `Tokens.UnexpiredAre` | worker/src/admin-auth.js:498-508 | Each entry stays or goes by its own expiry, in order |
| `Tokens.RunKeepsInv` | worker/src/admin-auth.js:487-517 | In every interleaving what is stored, handed out and dropped is what was stored at first |
| `Tokens.StepShortens` | worker/src/admin-auth.js:510-513 | A successful swap shortens the list, so a text once replaced never comes back |
| `Tokens.RefusedOnlyWhen` | worker/src/admin-auth.js:487-517 | A caller is refused only if its token was not stored unexpired when it last read, or after three others succeeded |
| `Tokens.DroppedHadExpired` | worker/src/admin-auth.js:500-513 | From a list of at most ten a swap drops only expired entries |
| `Tokens.Scan` | worker/src/admin-auth.js:498-508 | The scan finds the first unexpired entry of the token and keeps the other unexpired ones |
| `Tokens.AppMeta.UpdateWhere` | worker/src/admin-auth.js:510-513 | The row is replaced only where it still holds the text that was read |
| `Tokens.Request.Read` | worker/src/admin-auth.js:489-509 | Reading ends the request without a match, or holds the text, the entry and the rest |
| `Tokens.Request.Swap` | worker/src/admin-auth.js:510-516 | A swap over an unchanged row ends the request with its entry; over a changed one it counts an attempt, the third ends it |
| `TelemetryStandard.StandardRecovers` | agent/src/telemetry_proto.rs:15-62 | Decoding by the wire format recovers every field of every report: nested messages, repeated fields, absent optionals, field numbers out of order; negative times read as 0 |
| `TelemetryDecode.ReportRoundTrip` | worker/src/telemetry-protobuf.js:8-48 | The Worker, with the field numbers its own code branches on, recovers a report exactly when every number is at most 2^53 - 1, every double finite and the frame within its limit, and otherwise rejects it |
| `TelemetryDecode.MetricsTrip` | worker/src/telemetry-protobuf.js:50-91 | The same of the metrics |
| `TelemetryDecode.SampleTrip` | worker/src/telemetry-protobuf.js:192-213 | The same of a sample, whose fields the encoder writes in another order than the decoder lists them |
| `TelemetryDecode.VpsTrip` | worker/src/telemetry-protobuf.js:215-246 | The same of the host description, where empty names, zero counts and false flags are left out |
| `TelemetryDecode.ProxyTrip` | worker/src/telemetry-protobuf.js:302-324 | The same of a proxy check |
| `TelemetryDecode.SeriesTrip` | worker/src/telemetry-protobuf.js:274-288 | The same of a ping series |
| `TelemetryDecode.AggTrip` | worker/src/telemetry-protobuf.js:169-178 | The same of aggregated statistics |
| `TelemetryDecode.MemTrip` | worker/src/telemetry-protobuf.js:93-104 | The same of memory with optional swap |
| `TelemetryDecode.SlotsTrip` | worker/src/telemetry-protobuf.js:341-417 | Reading an encoded message gives its fields back exactly when the reader takes every value |
| `TelemetryDecode.OwnOrderTrip` | worker/src/telemetry-protobuf.js:192-213 | A reader that asks for the same numbers in an order of its own finds the same slots in it |
| `TelemetryDecode.UnknownFieldsIgnored` | worker/src/telemetry-protobuf.js:5-46 | Fields that a later schema adds, anywhere in a message, change nothing of what is read of the known ones |
| `TelemetryDecode.WorkerTakes` | worker/src/telemetry-protobuf.js:357-400 | The Worker takes numbers and lengths up to 2^53 - 1 and doubles whose exponent bits are not all ones |
| `Wire.ParseEncoded` | agent/src/telemetry_proto.rs:277-312 | Parsing encoded fields gives them back exactly when no number is above the reader's limit |
| `Wire.DocumentedExample` | agent/src/telemetry_proto.rs:277-312 | The bytes of a number and of a text are those of the encoding guide of Protocol Buffers |
| `Wire.GatherFieldsOf` | agent/src/telemetry_proto.rs:167-196 | Gathering fields by number restores a message whatever order they were written in |
| `Wire.ReadVarintBytes` | agent/src/telemetry_proto.rs:305-311 | A written varint reads back with the rest untouched |
| `Wire.VarintOfU64` | agent/src/telemetry_proto.rs:305-311 | A 64-bit number takes one to ten bytes |
| `Wire.ShortestForm` | agent/src/telemetry_proto.rs:305-311 | No bytes that read as a number are shorter than the encoder's |
| `Wire.ByteSink.PutVarint` | agent/src/telemetry_proto.rs:305-311 | The loop over seven-bit groups appends the varint |
| `Wire.ByteSink.PutKey` | agent/src/telemetry_proto.rs:301-303 | Number and wire type are packed into one varint |
| `Wire.ByteSink.PutNumber` | agent/src/telemetry_proto.rs:291-294 | One more field with that number |
| `Wire.ByteSink.PutDouble` | agent/src/telemetry_proto.rs:296-299 | One more field with those eight bytes |
| `Wire.ByteSink.PutBytes` | agent/src/telemetry_proto.rs:281-285 | One more length-delimited field |
| `Wire.ByteSink.PutRepeated` | agent/src/telemetry_proto.rs:49-51 | One more value of a repeated field |
| `TelemetryProto.EncodePayload` | agent/src/telemetry_proto.rs:15-32 | The encoder writes the slots of a report in order |
| `TelemetryProto.EncodeMetrics` | agent/src/telemetry_proto.rs:34-62 | The encoder writes the slots of the metrics in order |
| `TelemetryProto.EncodeSample` | agent/src/telemetry_proto.rs:167-196 | The encoder writes the slots of a sample in order |
| `TelemetryProto.EncodeVpsInfo` | agent/src/telemetry_proto.rs:198-248 | The encoder writes the slots of the host description, leaving out what is empty |
| `TelemetryProto.EncodeProxyCheck` | agent/src/telemetry_proto.rs:64-88 | The encoder writes the slots of a proxy check |
| `TelemetryProto.EncodeSeries` | agent/src/telemetry_proto.rs:250-275 | The encoder writes a target's sorted pings as a start and non-negative deltas |
| `TelemetryProto.EncodeAggStats` | agent/src/telemetry_proto.rs:140-157 | The encoder writes ten nested statistics |
| `TelemetryProto.EncodeMemory` | agent/src/telemetry_proto.rs:90-103 | The encoder writes memory and, if present, swap |
| `TelemetryProto.EncodeNet` | agent/src/telemetry_proto.rs:122-131 | The encoder writes network counters |
| `PingSeries.SeriesRoundTrip` | agent/src/main.rs:2112-2133 | Writing pings as grouped deltas and reading them back yields exactly their stable sort by target and time |
| `PingSeries.StableSortIsUnique` | agent/src/main.rs:2112-2133 | Two ordered lists with the same pings of every key in the same order are equal, so there is one stable sort |
| `PingSeries.DeltasNonNegative` | agent/src/main.rs:2118-2127 | No delta is negative |
| `PingSeries.NormalizePingPayload` | frontend/app.js:2374-2391 | The reader lists each series' points with absolute times |
| `PingSeries.PingSeriesJson` | agent/src/main.rs:2112-2133 | Grouping, sorting and subtracting gives the columns of each target |
| `PingSeries.GroupAll` | agent/src/main.rs:2112-2117 | Pings are grouped under ordered targets in arrival order |
| `PingSeries.AddPingKeeps` | agent/src/main.rs:2112-2117 | Adding a ping to its group puts it behind all earlier pings of its key |
| `PingArrival.PingsArrive` | agent/src/telemetry_proto.rs:250-275 | Whichever reader takes a report, listing its series gives the stable sort of the pings reported, negative times as 0 |
| `Dns.ParsesResponse` | agent/src/asn_lookup.rs:149-198 | On any well-formed response, names spelt out or compressed, the result is the number of the first text answer that has one, exactly when the message is an answer with the expected identifier |
| `Dns.ParseTxtAsn` | agent/src/asn_lookup.rs:149-198 | On any bytes the parser ends, stays in bounds and computes that function |
| `Dns.SkipsName` | agent/src/asn_lookup.rs:133-147 | Skipping a name lands right behind it, ended by the root or by a pointer |
| `Dns.SkipsBuiltName` | agent/src/asn_lookup.rs:107-147 | Skipping the name of a built query leaves exactly its type and class |
| `Dns.SkipName` | agent/src/asn_lookup.rs:133-147 | The loop is that function on any bytes, and never lands more than one byte past the end |
| `Dns.BuildQuery` | agent/src/asn_lookup.rs:107-131 | A query is built exactly when every label has 1 to 63 bytes, and is the header, the labels, type and class |
| `Dns.PutLabels` | agent/src/asn_lookup.rs:120-126 | Labels are written with their lengths, or the query is given up |
| `Dns.ReadText` | agent/src/asn_lookup.rs:179-190 | The text is the strings of the record's data up to one that overruns it |
| `Dns.TextRoundTrip` | agent/src/asn_lookup.rs:179-190 | Well-formed text data reads as the concatenation of its strings |
| `Dns.AsnFieldReads` | agent/src/asn_lookup.rs:200-203 | Digits up to the first bar, with white space around them, are read as their number, if it is positive and 32 bits hold it |
| `SemVer.AgreesWithSection11` | worker/src/app-update.js:12-19 | The comparison is the precedence of section 11 of Semantic Versioning 2.0.0, and 0 exactly for identical core and prerelease |
| `SemVer.Antisymmetric` | worker/src/app-update.js:12-19 | Swapping the arguments negates the result |
| `SemVer.Transitive` | worker/src/app-update.js:12-19 | The order is transitive across numbers, words, shorter lists and releases |
| `SemVer.NumbersKeepOrder` | worker/src/app-update.js:162-165 | Because accepted numbers print back as written, different ones stay apart and in order when rounded to doubles |
| `SemVer.ListsAgree` | worker/src/app-update.js:169-181 | Comparing prereleases is the first difference, or the longer list |
| `SemVer.ReadsWritten` | worker/src/app-update.js:157-167 | Every version text of the grammar is read as its numbers and identifiers |
| `SemVer.ReadsOnlyWritten` | worker/src/app-update.js:157-167 | And nothing else is read: behind white space and one `v` stand exactly the numbers and identifiers that are returned |
| `SemVer.CompareAppVersions` | worker/src/app-update.js:12-19 | An order is returned exactly when both texts are versions, and is that comparison |
| `SemVer.ComparePrerelease` | worker/src/app-update.js:169-181 | The loop over identifiers computes the comparison of prereleases |
| `Outbox.EveryResultAccounted` | agent/src/tasks.rs:209-342 | On every run each finished result was taken by the server, is still in a slot, or was dropped for a named reason |
| `Outbox.RecordsAreTrue` | agent/src/tasks.rs:209-342 | On every run the reason a result was dropped for happened to that very result, and one that counts as delivered was taken by the server |
| `Outbox.LeavesSlotOnly` | agent/src/tasks.rs:151-245 | A result leaves its slot only when the server took it and the file was removed, when the file is damaged and was renamed, or when a newer result is written over it |
| `Outbox.SettledLeaves` | agent/src/tasks.rs:151-245 | And it does leave when the server took it and it can be removed, or it is damaged and can be renamed |
| `Outbox.NeverGivenUp` | agent/src/main.rs:2490-2492 | In no run is a result given up because the server turned it down, whatever the status |
| `Outbox.TurnedDownBlocks` | agent/src/tasks.rs:205-245 | A result the server answers with an error status is sent again with every poll, and however many there are no task is claimed |
| `Outbox.TerminalTaskStatus` | agent/src/tasks.rs:250-259 | A status is found exactly when one is among the causes of the error |
| `Outbox.AfterTheTask` | agent/src/tasks.rs:305-342 | After a task its result is with the server and not kept, or kept in the first free slot, else the second, or dropped if it cannot be written |
| `Outbox.DisciplinedIff` | agent/src/tasks.rs:209-342 | Over a whole run: the second slot stays empty and the first holds only the newest result if and only if no task is ever claimed over a file that could not be moved out of the way |
| `Outbox.AtMostOneUndelivered` | agent/src/tasks.rs:209-342 | And then at most the newest finished result is neither delivered nor dropped |
| `Outbox.ClaimedOverClearSlots` | agent/src/tasks.rs:209-245 | In general work is claimed only over slots this flush found empty, emptied, or failed to empty |
| `Outbox.FailedRenameFillsBothSlots` | agent/src/tasks.rs:209-245 | A damaged file that cannot be renamed is enough for two results at once |
| `Outbox.Runner.FlushPending` | agent/src/tasks.rs:209-245 | A flush visits the slots in order, stops at a result to be retried, and reports whether anything was delivered or is still to be |
| `Outbox.Runner.VisitSlot` | agent/src/tasks.rs:151-193 | A slot is left, delivered, discarded, quarantined or kept, as its file and the reply say |
| `Outbox.Runner.PollOnce` | agent/src/tasks.rs:261-342 | A poll flushes, claims, and after three failed attempts keeps the result in the first free slot |
| `TailBuffer.Tail.AppendTail` | agent/src/tasks.rs:1884-1895 | The buffer always holds the last bytes of everything appended |
| `TailBuffer.ReadTailCapped` | agent/src/tasks.rs:1813-1832 | Reading a stream to its end keeps its last bytes, however it is cut up |

## Left out

- TelemetryLoop.RunKeepsInv: the generation is an unbounded number, so its wrap-around after 2^64 uploads is not modelled, and neither is the single-shot mode `--once`.
- TelemetryLoop.LossAccounting: an abandoned upload may still reach the server and its samples be sent again; duplicates on the server's side are outside the accounting.
- Recovery.CrashRecovers: the restart of a panicked writer thread and the Windows path that removes the file before renaming are not modelled.
- QueueFile.LoadAfterSave: how a sample is written as JSON and read back is a parameter that delimits itself, is exact, and takes at least 180 bytes; elements that are no samples, and defaults for missing members, are not modelled.
- SelfUpdate.Installation.Lifecycle: a crash is one of the process after a file operation whose effects are in order; losing renames in a power failure is not modelled. Operations do not overlap: confirming an update in the main loop while the update thread of the same process installs is modelled as an installation cut off, a confirmation, and a new process (`SelfUpdate.ReportAfterCrashDeletesTheLastCopy`), not as one that then goes on.
- SelfUpdate.Installation.RunWatchdog: when the manager writes its confirmation, by watching the telemetry process for a while, is an input; a confirmation file that cannot be deleted is not modelled.
- Availability.AgentAvailabilitySegments: times are whole seconds after parsing; days are numbers, with the time zone's offset as a parameter.
- AvailabilityMerge.MergeAgentAvailabilityRows: ids arrive sanitised, rows with malformed days and times after the year 9999 are not part of this model, and the final sort is not modelled.
- RateTable.SlidingWindow: admissions before a key was last cleared, after a successful login, are forgiven and not counted.
- RateLimit.LimitAcrossOutages: an insert that took effect although the database reported an error counts in neither limiter; clearing a key is no request here; all isolates read one clock.
- RateTable.RefusedUntilRetry: clocks are positive seconds, so a row stamped 0, which the code takes for none, does not occur.
- ConfigCache.BoundedStaleness: one key at a time; the store drops entries by age from when it was written to, and may drop them sooner.
- Tokens.EachTokenOnce: consumers only; producers overwrite the row unconditionally. Hashing tokens and comparing in constant time are equality here.
- TelemetryDecode.ReportRoundTrip: UTF-8 checks of strings and the parsing of the capabilities' JSON are not modelled, and a field absent from a sample or a statistics record reads as zero rather than as undefined; the encoder always sends it.
- TelemetryStandard.StandardRecovers: a report of 2^64 bytes or more has no length on the wire.
- PingSeries.NormalizePingPayload: a series without a list of deltas and times that are not numbers are not modelled.
- Dns.ParsesResponse: turning bytes into text is a parameter, so nothing is said about invalid UTF-8; sockets, retries and the cache are left out.
- SemVer.AgreesWithSection11: doubles are any monotone rounding that is exact up to 2^53 - 1; the code accepts leading zeros in the core, which the grammar of Semantic Versioning does not.
- Outbox.EveryResultAccounted: a crash between finishing a task and storing its result, leftover temporary files and symbolic links are not modelled; of an error's causes only whether a status is among them counts.
- HTTP, WebSocket, TLS, gzip, hashing and encryption: their results are inputs.
- Probing `/proc` and `/sys`, proxy adapters, GeoIP and unlock text parsing: foreign data with shallow claims.
- Routing, sessions, OAuth exchange, themes, charts and the rest of the front end: thin or visual code.
