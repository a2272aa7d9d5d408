# Beszel: verified models of its stateful cores

Beszel is a monitoring hub with agents on the monitored systems. This project models the parts of it whose
behaviour depends on what happened before, and proves what they promise over whole runs.

| file | what it models |
|---|---|
| `PackageApply.dfy`, `ApplyJobRuns.dfy` | the agent's detached package installation: job file, exit file, watcher, recovery; runs with crashes |
| `RequestManager.dfy` | correlation of requests and responses on a WebSocket, every interleaving |
| `DeviceMerge.dfy`, `DeviceProperties.dfy`, `SmartManager.dfy` | reconciliation of SMART devices: values, what single devices inherit, and the same on the heap |
| `StatsAverages.dfy`, `ContainerAverages.dfy` | averages and peaks of statistics records |
| `Rollup.dfy` | tiers of longer records, and retention |
| `StatusAlerts.dfy` | delayed "system down" alerts and the worker that sends them |
| `ThresholdAlerts.dfy`, `ThresholdProperties.dfy`, `ThresholdNotices.dfy`, `ThresholdMirror.dfy` | threshold alerts: evaluation, what a notice means, exactly when one is sent, low alerts |
| `ThresholdLeaning.dfy`, `ThresholdWitness.dfy`, `ThresholdRerun.dfy`, `ThresholdPatterns.dfy` | rows that leave readings standing, and when evaluating a report again is silent |
| `AlertHistory.dfy` | history rows tied to the alerts' flags, and their pruning |
| `DeltaTracker.dfy`, `NetworkRates.dfy`, `DockerNetwork.dfy`, `GpuAverages.dfy` | counters read under several polling intervals |
| `DockerLogs.dfy` | the decoder of Docker's multiplexed log stream |
| `Systems.dfy`, `Realtime.dfy`, `ExpiryMap.dfy` | the hub's registries |
| `Options.dfy`, `GoStrings.dfy` | optional values; the string functions used |

The pattern is the same throughout: functions on plain values say what a step does, classes and methods with
the source's own fields and loops are proved to do just that, and lemmas about the functions state what holds
of every step and every run. Time is an integer passed to each step, the database and files are maps and
sequences, and goroutines are atomic steps in any order. Values that the source rounds to two decimals are
counted in hundredths (or, for threshold alerts and GPU averages, are reals); unsigned integers are modelled
with their wrap-around where it can matter.

Where the code does not meet a property in general, the code is modelled as it is, and the exact condition or
a concrete failing run is proved beside the property:

- an exit code can be taken for another job's exactly when some script still runs at the start
  (`ApplyJobRuns.MisattributedExactlyWhen`), and a late script divides runs with and without a crash
  (`ApplyJobRuns.LateScriptDivides`);
- a reused request id is hit by a late watcher exactly when 2^32 sends have passed
  (`RequestManager.LateWatcherHitsExactly`);
- a status alert's tick can overtake a queued cancellation: a "down" is justified exactly when it does not
  (`StatusAlerts.TickIsJustifiedExactly`, `StatusAlerts.NotificationsAreFaithful`), and notifications alternate
  exactly when none follows such a "down" (`StatusAlerts.NotificationsAlternate`);
- a pause can hide a recovery from the status alerts: they alternate exactly when every stretch between pauses
  that changes starts with the status last reported (`Systems.ReportsAlternateExactly`);
- rows are decoded into one variable, so that a rate of zero, which is not encoded, is read as the rate of the
  row before: a report evaluated again is silent for all values exactly when no alert leans on a row that a
  shorter second query leaves out (`ThresholdPatterns.SilentExactly`);
- a record saved with a stale flag can open a second history row: the history is exact throughout a run exactly
  when no save is of the harmful kind (`AlertHistory.RunIsExactExactly`);
- a container's speed is divided by the time since any interval's read: this is the interval's own time exactly
  when no other interval has read the container since (`DockerNetwork.ClockIsOwnExactly`);
- a wrapped network total is recognised exactly up to a bound (`NetworkRates.WrapIsRejectedExactly`);
- GPU samples are lost to an interval exactly at polls whose count wraps to 0 (`GpuAverages.SamplesAreAccountedFor`);
- a search by value misses a live binding exactly behind an expired one (`ExpiryMap.SearchMissesExactly`);
- the 257th subscription to a system breaks its one-byte count when it ends (`Realtime.ReleaseCountsExactly`).

## Model

| member | source | states |
|---|---|---|
| `PackageApply.ApplicableMeaning` | agent/pkgupdate.go:512-520 | an "all" request names exactly the cached updates that are not held and, for security-only requests, are security updates |
| `PackageApply.FirstInvalidMeaning` | agent/pkgupdate.go:526-530 | the request is refused for the name at the least index that the pattern rejects, and for none exactly when all are valid |
| `PackageApply.FirstHeldMeaning` | agent/pkgupdate.go:536-544 | the request is refused for the cached update at the least index that is held and requested, and for none exactly when there is none |
| `PackageApply.StartsExactlyWhen` | agent/pkgupdate.go:507-611 | a job starts if and only if the launch works, none is running, a request for "all" finds something applicable, every name is valid, none is held, and the package manager has a command for it; a refused request changes nothing, and a failed launch has removed the exit and log files and changes nothing else (a request for given packages need not name any) |
| `PackageApply.CommandMeaning` | agent/pkgupdate.go:548-558 | a started job upgrades everything if and only if a root agent was asked for "all" without restriction, and in any other case installs exactly the packages of its status: for "all" those of the updates that are not held, for security-only requests the security updates among them |
| `PackageApply.LaunchIsPlain` | agent/pkgupdate.go:566-571 | whatever is requested, every package on a command line is one plain word, without a character that means something to a shell, and not an option |
| `PackageApply.RefusalMeaning` | agent/pkgupdate.go:511-561 | which refusal a request gets, when several apply |
| `PackageApply.FinalMeaning` | agent/pkgupdate.go:643-669 | status, packages, times in whole seconds and message of a finished job, for every exit code and log |
| `PackageApply.UnreadableExitFails` | agent/pkgupdate.go:627-630 | an exit file without a digit counts as a failure |
| `PackageApply.PkgUpdateManager.StartApply` | agent/pkgupdate.go:507-611 | whole new state of job directory and manager, and the reply, for every outcome of a start; the command launched is that of CommandMeaning |
| `PackageApply.PkgUpdateManager.FinalizeJob` | agent/pkgupdate.go:643-669 | status, removal of the job file and refreshed cache after a job ends |
| `PackageApply.PkgUpdateManager.PollExit` | agent/pkgupdate.go:622-641 | one tick of the watcher: what it reads decides whether and how the job is finalized |
| `PackageApply.PkgUpdateManager.Refresh` | agent/pkgupdate.go:204-232 | a failed check leaves the cache, a successful one replaces it |
| `PackageApply.PkgUpdateManager.constructor` | agent/pkgupdate.go:671-690 | recovery on start: an intact job file makes the job run again under a watcher, a broken one is removed |
| `PackageApply.WatchJob` | agent/pkgupdate.go:622-641 | the watcher stops at the first tick with an exit file or past the timeout, never later, with the code read there or -1 |
| `ApplyJobRuns.StepKeepsInStep` | agent/pkgupdate.go:507-690 | every step, crashes included, keeps "running", "job file present" and "one watcher alive" equivalent while the agent is up |
| `ApplyJobRuns.RunKeepsInStep` | agent/pkgupdate.go:507-690 | so does every run |
| `ApplyJobRuns.RunKeepsInv` | agent/pkgupdate.go:507-690 | with punctual scripts, an exit file next to a job in flight was written by that job's own script, in every run |
| `ApplyJobRuns.DoneIsEarned` | agent/pkgupdate.go:643-690 | an agent turns to "done" only on a tick, for the job in flight, after that job's own script wrote exit code 0 |
| `ApplyJobRuns.CrashTransparency` | agent/pkgupdate.go:563-690 | any number of crashes and restarts between start and outcome: the status, packages and start time reported are those of the run without the crashes |
| `ApplyJobRuns.TickSettles` | agent/pkgupdate.go:622-669 | a watched job is settled by any tick once its exit file is there or its time is up |
| `ApplyJobRuns.ShellCodeIsRead` | agent/pkgupdate.go:627-630 | a code the shell writes is the code the watcher finalizes with |
| `ApplyJobRuns.MisattributedExactlyWhen` | agent/pkgupdate.go:557-606 | a start can lead to another script's exit code being taken for its own if and only if some script still runs at the start |
| `ApplyJobRuns.LateScriptDivides` | agent/pkgupdate.go:622-641 | without punctual scripts transparency fails: a concrete late script is "failed" for an agent that stayed up and "done" for one that was down at the deadline |
| `GoStrings.AtoiOfEcho` | agent/pkgupdate.go:627-628 | printing an exit code with a newline, trimming and parsing it gives the code back |
| `GoStrings.TrimMeaning` | agent/pkgupdate.go:627-628 | trimming takes away exactly the white space at both ends |
| `GoStrings.DigitsOnly` | agent/pkgupdate.go:627-628 | exactly non-empty runs of digits have a value |
| `RequestManager.Manager.Allocate` | internal/hub/ws/request_manager.go:45-64 | drawing an id and making the request, which is created at the clock given |
| `RequestManager.Manager.Register` | internal/hub/ws/request_manager.go:66-68 | filing the request under its id |
| `RequestManager.Manager.FinishSend` | internal/hub/ws/request_manager.go:76-85 | the rest of a send: the watcher starts, or the request is withdrawn |
| `RequestManager.Manager.Route` | internal/hub/ws/request_manager.go:103-163 | a message with the id of a pending request is on its way to that request, one without an id to a pending request created no later than any other, and only one for which nothing is pending is closed |
| `RequestManager.Manager.OldestPending` | internal/hub/ws/request_manager.go:139-155 | the pending request created first |
| `RequestManager.Manager.CancelRequest` | internal/hub/ws/request_manager.go:172-180 | cancel and removal under one lock |
| `RequestManager.Manager.CleanupRequest` | internal/hub/ws/request_manager.go:166-169 | what a watcher does when its context is done |
| `RequestManager.Manager.Close` | internal/hub/ws/request_manager.go:190-199 | nothing is left pending or uncancelled |
| `RequestManager.MessageOwnership` | internal/hub/ws/request_manager.go:103-163 | in every interleaving a message out of the reader's hand was either closed or put into exactly one request's channel, never both, and one with an id only into that of the request with that id |
| `RequestManager.LookupFindsRequest` | internal/hub/ws/request_manager.go:118-155 | a message for which a request is pending is not closed at its lookup but on its way to such a request, to the very one if it carries an id |
| `RequestManager.MessageArrives` | internal/hub/ws/request_manager.go:120-163 | over every run, a message on its way is put into the request's channel, once, and stays there until it is taken, unless the request's context is done first |
| `RequestManager.AnswerArrives` | internal/hub/ws/request_manager.go:103-136 | in every interleaving a response looked up while the request of its id is pending arrives at that request, unless its context is done first |
| `RequestManager.ClosedOnlyUnanswerable` | internal/hub/ws/request_manager.go:120-163 | in every interleaving a message is closed only where nothing was pending for it at its lookup, or the chosen request's context was done |
| `RequestManager.CreatedWhenAllocated` | internal/hub/ws/request_manager.go:58-64 | over every run each request carries the clock of its own allocation |
| `RequestManager.DeliveryNeverBlocks` | internal/hub/ws/request_manager.go:120-136 | whenever the reader is about to send, the one slot is free; a request gets at most one message |
| `RequestManager.DoneRequestsAreCleanedUp` | internal/hub/ws/request_manager.go:166-187 | a pending request whose context is done is still to be cleaned up by its sender or its watcher |
| `RequestManager.CancelMeansRemoved` | internal/hub/ws/request_manager.go:172-199 | every cancel the manager issues goes with a removal; Close leaves nothing pending |
| `RequestManager.SameIdExactlyWhen` | internal/hub/ws/request_manager.go:46 | two requests share an id if and only if a multiple of 2^32 sends lies between them |
| `RequestManager.LiveIdsAreDistinct` | internal/hub/ws/request_manager.go:45-86 | with fewer than 2^32 sends during a request's life, live requests have distinct ids |
| `RequestManager.EntryIsOwn` | internal/hub/ws/request_manager.go:166-187 | within that window, the entry under a live request's id is its own |
| `RequestManager.OwnRequestOnly` | internal/hub/ws/request_manager.go:166-187 | within that window, no goroutine disturbs another's request |
| `RequestManager.LateWatcherHitsExactly` | internal/hub/ws/request_manager.go:166-180 | a late watcher cancels another request if and only if that one is filed under the same, reused id |
| `DeviceMerge.MergeOrder` | agent/smart.go:592-718 | the merge lists a copy of every named scanned device in order, then one device for every named configured device that matched nothing, in order; every one of them, with all its fields, is that copy or new device under the configured devices of its name that landed on it, in order |
| `DeviceMerge.MergeNames` | agent/smart.go:592-718 | every named input device's name is in the result, and no other name is |
| `DeviceMerge.VerifiedTypeSurvives` | agent/smart.go:622-631 | a name the previous list holds once and verified keeps its type and parser on every device of that name |
| `DeviceProperties.ScannedInherits` | agent/smart.go:650-678 | however often a name occurs: if the last earlier device of a scanned device's name and type, or else the only one of its name, is verified, the merged device at that position is verified with its type and parser; otherwise it inherits nothing |
| `DeviceProperties.AddedInherits` | agent/smart.go:698-714 | the same for every configured device listed by itself, which come in order; with nothing to inherit, its type decides its parser |
| `DeviceProperties.PreviousMeaning` | agent/smart.go:650-656 | the record whose verification is inherited: the last of that name and type, or the only one of that name |
| `DeviceProperties.LandsExactly` | agent/smart.go:685-716 | a further configured device changes the device last filed under its name and type, or else the only scanned one of its name, or else is listed by itself; nothing else changes |
| `DeviceProperties.LastConfiguredInfoWins` | agent/smart.go:631-648 | the last display name configured for a device wins |
| `DeviceProperties.LastConfiguredProtocolWins` | agent/smart.go:631-648 | so does the last protocol |
| `DeviceProperties.UnverifiedParsesAsDetected` | agent/smart.go:364-427 | an unverified device is parsed by the parser its output looks like, if that accepts, and otherwise by the first of NVMe, SATA and SCSI that does |
| `DeviceProperties.ParserNames` | agent/smart.go:325-336 | the type names that stand for each parser |
| `DeviceMerge.ScannedOnce` | agent/smart.go:662-718 | a name scanned once is listed once, at its scanned position, with its verification and all its configuration applied |
| `DeviceMerge.LastConfiguredTypeWins` | agent/smart.go:631-648 | over an unverified scan, the last configured type for the name decides type and parser |
| `DeviceMerge.VerifiedForever` | agent/smart.go:592-718 | over any sequence of scans and configurations that list the name once, a verified device is never downgraded |
| `DeviceMerge.ParseOutcome` | agent/smart.go:347-436 | parsing succeeds exactly when some parser accepts the output, and verifies the device exactly then, with the first accepting parser of the preference order; nothing else changes but an unset or differently spelled type |
| `DeviceMerge.VerifiedParseIsStable` | agent/smart.go:347-436 | a verified device whose parser still accepts is parsed without detection and keeps its record, if and only if its type is set and is not a different spelling of the parser; otherwise only the type becomes the parser's name |
| `SmartManager.BuildUniqueNameIndex` | agent/smart.go:597-616 | the index holds exactly the devices whose name occurs once |
| `SmartManager.BuildKeyIndex` | agent/smart.go:650-656 | the index holds the last device of each key |
| `SmartManager.PreserveVerifiedType` | agent/smart.go:622-631 | which fields of the target change, and nothing else |
| `SmartManager.ApplyConfiguredMetadata` | agent/smart.go:631-648 | which fields of the target change, and nothing else |
| `SmartManager.MergeScanned` | agent/smart.go:662-682 | the first loop, over fresh copies |
| `SmartManager.MergeConfigured` | agent/smart.go:685-716 | the second loop: overrides in place or a fresh copy |
| `SmartManager.MergeDeviceLists` | agent/smart.go:592-718 | the heap version returns new objects holding the merged values and modifies no input object; what these inherit is in ScannedInherits and AddedInherits |
| `SmartManager.SmartManager.UpdateSmartDevices` | agent/smart.go:722-758 | exactly the data entries backed by the new list remain |
| `SmartManager.UnexcludedMeaning` | agent/smart.go:265-288 | a device passes if and only if its name is not excluded |
| `SmartManager.Prune` | agent/smart.go:733-756 | exactly the cached records backed by a device stay |
| `SmartManager.SmartManager.DetectParser` | agent/smart.go:347-372 | the parser to try first, and what detection changes on the device |
| `SmartManager.SmartManager.FilterExcludedDevices` | agent/smart.go:265-288 | exactly the devices not excluded pass, in order |
| `SmartManager.SmartManager.ParseSmartOutput` | agent/smart.go:347-436 | the parser loop on one device meets its specification |
| `StatsAverages.AverageSystemStats` | internal/records/records.go:172-437 | the accumulating and dividing loops compute the specified average |
| `StatsAverages.AverageChannel` | internal/records/records.go:202-256 | every peak is the largest reading or peak of the records, every value their rounded or floored mean |
| `StatsAverages.ChannelIsMean` | internal/records/records.go:337-423 | the value of a channel is the mean of its readings over all records, rounded to the nearest or down, in terms of the sum alone |
| `StatsAverages.RateIsMean` | internal/records/records.go:232-244 | battery, per-core usage and the rates of network interfaces are means over all records, too |
| `StatsAverages.AverageLists` | internal/records/records.go:236-262 | every interface and disk of some record is listed, as many cores as the longest list has, and the battery state is the last one |
| `StatsAverages.PeakIsUnique` | internal/records/records.go:223-245 | a channel has one peak |
| `StatsAverages.AverageWithinPeak` | internal/records/records.go:337-423 | a rounded or floored average never exceeds its own peak |
| `StatsAverages.HierarchicalPeaks` | internal/records/records.go:172-437 | averaging groups and then the averages gives, for every peak field, what one pass over all base records gives |
| `StatsAverages.Uint8NeverWraps` | internal/records/records.go:337-423 | the battery and per-core averages fit their byte |
| `ContainerAverages.AverageContainerStats` | internal/records/records.go:439-487 | one average for every container name that any record lists; nothing when a record cannot be decoded |
| `ContainerAverages.MeanOfAllRecords` | internal/records/records.go:462-484 | CPU and memory are the totals over the number of all records, to the nearest hundredth, byte rates rounded down, with the older form of the rates where there is no newer; absences count as 0 |
| `Rollup.RecordManager.CreateLongerRecords` | internal/records/records.go:53-169 | the loops make exactly the specified longer records |
| `Rollup.RecordManager.CreateLongerRecord` | internal/records/records.go:100-158 | one tier: existence check, source set, minimum, insertion |
| `Rollup.MadeExactly` | internal/records/records.go:100-158 | a turn adds one longer record exactly when the shorter records from the period before it cover nine tenths of it and no longer record is recent (10-minute records are not checked); it averages all those records, each once |
| `Rollup.TiersCoverPeriods` | internal/records/records.go:58-82 | every tier is made from the next shorter type over its own period |
| `Rollup.JobTakesEveryTurn` | internal/records/records.go:99-118 | the job takes a turn for every system, longer type and collection, shorter types first |
| `Rollup.DeletesExactly` | internal/records/records.go:547-575 | which records a deletion leaves |
| `Rollup.RecordManager.DeleteOldSystemStats` | internal/records/records.go:538-577 | exactly the records within their retention remain |
| `Rollup.TurnSeesRetained` | internal/records/records.go:100-144 | every record a turn looks at survives any deletion at or before the turn |
| `Rollup.RetentionCommutes` | internal/records/records.go:55-144 | over whole runs, however deletions are interleaved, the same longer records are made |
| `Rollup.RunsAreSpaced` | internal/records/records.go:100-158 | in every run, records of one system, collection and checked tier are at least the period less a minute apart |
| `Rollup.StorageBound` | internal/records/records.go:547-575 | after a deletion, a tier holds at most what its spacing fits into its retention |
| `Rollup.StorageIsBounded` | internal/records/records.go:547-575 | in every run at most 76, 85 and 91 records of the 20, 120 and 480 minute tiers are left by a deletion |
| `StatusAlerts.AlertManager.HandleSystemDown` | internal/alerts/alerts_status.go:107-124 | whole new state: every alert not pending, and no other, is scheduled after its configured minutes, or one minute |
| `StatusAlerts.AlertManager.HandleSystemUp` | internal/alerts/alerts_status.go:126-143 | whole new state: pending alerts get a queued cancellation, the others are sent |
| `StatusAlerts.AlertManager.ProcessTask` | internal/alerts/alerts_status.go:38-47 | whole new state of the worker's case for a queue entry |
| `StatusAlerts.AlertManager.ProcessPendingAlerts` | internal/alerts/alerts_status.go:50-61 | whole new state of the worker's tick, for every visiting order |
| `StatusAlerts.StepIsLocal` | internal/alerts/alerts_status.go:27-143 | an event does to an alert what it does to that alert alone, whatever else is pending or queued |
| `StatusAlerts.TickIsJustifiedExactly` | internal/alerts/alerts_status.go:50-61 | over every run in which the queue is worked off before each report, an expired alert that a tick sends ended a full delay if and only if its cancellation is not still queued |
| `StatusAlerts.DownIsDelayed` | internal/alerts/alerts_status.go:107-124 | over every such run, a "down" that is not overtaken comes more than the configured minutes, and more than one minute, after its own down report |
| `StatusAlerts.RunIsAsConfigured` | internal/alerts/alerts_status.go:38-47 | over every run, orderly or not, what is queued has the configured delay, and what is pending is due exactly that long after the worker took it up |
| `StatusAlerts.TickMeaning` | internal/alerts/alerts_status.go:50-61 | a tick sends exactly the visited alerts whose time has passed and takes them off |
| `StatusAlerts.NotificationsAreFaithful` | internal/alerts/alerts_status.go:27-143 | over every such run, whatever is queued at ticks: an up report during a delay is answered by nothing, any other by "up", and there is no other "up"; each "down" ends a delay of its own down report, longer than the configured minutes, or comes from a tick that overtook a queued cancellation; there is one of the latter if and only if some tick did |
| `StatusAlerts.PromptIsNotOvertaken` | internal/alerts/alerts_status.go:38-61 | when the queue is worked off before ticks as well, no tick overtakes a cancellation |
| `StatusAlerts.RunningSinceMeaning` | internal/alerts/alerts_status.go:27-64 | a running delay has its down report in the log with no up report and no "down" after it, and there is none otherwise |
| `StatusAlerts.AlternationCarriesOver` | internal/alerts/alerts_status.go:27-143 | alternating reports give alternating notifications when every "down" is justified |
| `StatusAlerts.AlternationExactly` | internal/alerts/alerts_status.go:27-143 | with alternating reports, notifications alternate if and only if no notification follows an overtaken "down" |
| `StatusAlerts.NotificationsAlternate` | internal/alerts/alerts_status.go:27-143 | the same for every alert of every run in which the queue is worked off before each report; so they alternate when no tick overtakes a cancellation |
| `StatusAlerts.NothingToRepair` | internal/alerts/alerts_status.go:174-203 | over such runs with alternating reports, an alert is triggered while its system is up only if its last notification is an overtaken "down", and if it is, unless a repair ran; so the repair has nothing to do when nothing is overtaken |
| `StatusAlerts.TickOvertakesCancel` | internal/alerts/alerts_status.go:38-61 | a tick before a queued cancellation sends "down" last and leaves the alert triggered with the system up |
| `StatusAlerts.UpOvertakesSchedule` | internal/alerts/alerts_status.go:107-143 | an up report before a queued schedule sends "up" for nothing and "down" for a system that is up |
| `ThresholdAlerts.HighestOf` | internal/alerts/alerts_system.go:44-51 | the highest of a base value and a map's values |
| `ThresholdAlerts.AddMinute` | internal/alerts/alerts_system.go:189-244 | what one minute adds for one alert |
| `ThresholdAlerts.SumStats` | internal/alerts/alerts_system.go:167-246 | the nested loops leave in place, for every alert, the tally of its own window over all rows; a row that cannot be decoded stops them |
| `ThresholdAlerts.AverageOf` | internal/alerts/alerts_system.go:249-272 | the average of a tally |
| `ThresholdAlerts.SelectStats` | internal/alerts/alerts_system.go:132-144 | the rows after the bound, in order |
| `ThresholdAlerts.FilterAlerts` | internal/alerts/alerts_system.go:149-160 | the alerts whose window starts after the first row |
| `ThresholdAlerts.AverageDelayed` | internal/alerts/alerts_system.go:127-246 | from query to sums |
| `ThresholdAlerts.AlertManager.HandleLiveValues` | internal/alerts/alerts_system.go:30-125 | gate, immediate sends, windows and the oldest of them |
| `ThresholdAlerts.AlertManager.SendVerdicts` | internal/alerts/alerts_system.go:247-298 | each average's verdict, stored and sent |
| `ThresholdAlerts.AlertManager.HandleSystemAlerts` | internal/alerts/alerts_system.go:17-300 | stored flags and notices after a report are those of the specified evaluation, whose notices are characterised in ThresholdNotices |
| `ThresholdProperties.EveryNoticeFlips` | internal/alerts/alerts_system.go:76-117 | a notice is sent if and only if a record has a source for it; it carries the negated stored flag, which agrees with its value's side of the threshold |
| `ThresholdProperties.VerdictNeedsMinutes` | internal/alerts/alerts_system.go:273-277 | a delayed notice counts at least two minutes and five sixths of the window: no division by zero; the one-byte count is the true one modulo 256 |
| `ThresholdProperties.DelayedNoticeIsMean` | internal/alerts/alerts_system.go:189-272 | a delayed notice's value is the sum of its window over that count |
| `ThresholdProperties.DelayedNoticeIsHighestMean` | internal/alerts/alerts_system.go:196-269 | for disks and temperatures, the highest of the parts' means |
| `ThresholdNotices.NoticeSide` | internal/alerts/alerts_system.go:79-93 | every notice negates its record's flag; it is triggered exactly when its value is below the threshold for a battery, above it for everything else |
| `ThresholdNotices.GateMeaning` | internal/alerts/alerts_system.go:30-93 | the gate: the live reading of the alert's name contradicts the stored flag |
| `ThresholdNotices.ImmediateExactly` | internal/alerts/alerts_system.go:30-117 | an alert without a delay of more than a minute is sent if and only if its live reading contradicts the stored flag, with that reading, for each name the one of the report |
| `ThresholdNotices.DelayedExactly` | internal/alerts/alerts_system.go:127-298 | an alert with a longer delay is sent if and only if its live reading and the mean of its window both contradict the stored flag and the window has enough minutes, with that mean |
| `ThresholdNotices.WindowCountMeaning` | internal/alerts/alerts_system.go:167-187 | the minutes of a window are the rows created at least ten seconds after its start; for GPUs, those by which one was known |
| `ThresholdNotices.RowsReachBack` | internal/alerts/alerts_system.go:127-144 | the query returns exactly the rows younger than the longest delayed window and a minute and a half |
| `ThresholdMirror.SingleRecord` | internal/alerts/alerts_system.go:17-300 | what one record sends, in closed form |
| `ThresholdMirror.LowAlertMirrorsOrdinary` | internal/alerts/alerts_system.go:79-117 | a battery alert sends exactly what an ordinary alert sends on the negated threshold and values |
| `ThresholdLeaning.FieldSame` | internal/alerts/alerts_system.go:167-176 | a field is read the same without the first rows, unless it comes from one of them |
| `ThresholdLeaning.SuffixTally` | internal/alerts/alerts_system.go:184-187 | rows before the window make no difference to an alert if no row in its window leans on one of them |
| `ThresholdWitness.StaysSilentExactly` | internal/alerts/alerts_system.go:167-298 | for a pattern of rows and present fields, an alert that is silent stays silent without the first rows for all values, thresholds and flags, if and only if no row in its window leans on one of them or too few rows are left for a verdict |
| `ThresholdRerun.SettledReads` | internal/alerts/alerts_system.go:167-176 | rows that carry what an alert reads are read as if decoded on their own |
| `ThresholdRerun.SettledStandsAlone` | internal/alerts/alerts_system.go:167-187 | so no window over such rows leans on a row left out |
| `ThresholdRerun.ReloadedRecord` | internal/alerts/alerts_system.go:345-349 | a record that was sent is negated and no longer passes the gate; any other is as it was |
| `ThresholdRerun.SecondEvaluationIsSilent` | internal/alerts/alerts_system.go:17-300 | evaluating the same report again after the save sends nothing, if the second query starts where the first did, or no row leans on one that it leaves out in the window of an alert that is still delayed and has enough minutes |
| `ThresholdRerun.LeftoverReadingSendsAgain` | internal/alerts/alerts_system.go:167-176 | otherwise it can: a rate of zero is not encoded, so that the row before it is read once more |
| `ThresholdPatterns.SilentWithoutLeftover` | internal/alerts/alerts_system.go:17-300 | for given values, the second evaluation is silent unless an alert that can be sent shortens the second query by a row on which another alert's window leans |
| `ThresholdPatterns.SilentExactly` | internal/alerts/alerts_system.go:17-300 | for given alerts, window lengths, creation times and present fields: the second evaluation sends nothing for all reports, thresholds, stored flags and values, if and only if there are no such alerts |
| `AlertHistory.AlertStore.ResolveAlertHistoryRecord` | internal/alerts/alerts_history.go:44-55 | the first open row of the alert is closed, no other row changes |
| `AlertHistory.ResolveMeaning` | internal/alerts/alerts_history.go:44-55 | the first open row of the alert gets the time, and nothing else changes |
| `AlertHistory.AlertStore.SaveAlert` | internal/alerts/alerts_history.go:20-41 | whole new state of a save with its hook |
| `AlertHistory.AlertStore.DeleteAlert` | internal/alerts/alerts_history.go:11-17 | whole new state of a delete with its hook |
| `AlertHistory.AlertStore.DeactivateAlerts` | internal/hub/systems/system_manager.go:343-359 | whole new state after deactivating a system's alerts |
| `AlertHistory.AlertStore.DeleteOldAlertsHistory` | internal/records/records.go:519-535 | whole new history after the pruning job |
| `AlertHistory.UpdateKeepsExactly` | internal/alerts/alerts_history.go:20-41 | a save keeps "one open row exactly when triggered" if and only if the record was loaded with the stored flag, or resolves an alert loaded as triggered |
| `AlertHistory.DeleteLeavesNoneOpen` | internal/alerts/alerts_history.go:11-17 | a deleted alert leaves no open row |
| `AlertHistory.DeactivateResolves` | internal/hub/systems/system_manager.go:343-359 | pausing resolves the alerts it deactivates and no other |
| `AlertHistory.PruneLosesExactly` | internal/records/records.go:528-533 | an open row is lost if and only if its user has as many newer rows as are kept |
| `AlertHistory.JobCounts` | internal/records/records.go:519-535 | 200 rows of a user are left if there were more than 250, otherwise all |
| `AlertHistory.RunIsExactExactly` | internal/alerts/alerts_history.go:11-74 | over every run without pruning, whatever flags the saved records were loaded with, an alert has one open row exactly while it is triggered, throughout, if and only if every save was loaded with the stored flag or resolves an alert loaded as triggered |
| `AlertHistory.RunKeepsHistory` | internal/alerts/alerts_history.go:11-74 | over every run of such saves, pruning included, at most one open row and only while triggered |
| `DeltaTracking.DeltaTracker.Set` | agent/deltatracker/deltatracker.go:34-38 | whole new state |
| `DeltaTracking.DeltaTracker.Delta` | agent/deltatracker/deltatracker.go:77-92 | 0 unless the key is in both intervals |
| `DeltaTracking.DeltaTracker.Deltas` | agent/deltatracker/deltatracker.go:51-64 | the same for every key |
| `DeltaTracking.DeltaTracker.Previous` | agent/deltatracker/deltatracker.go:67-73 | the previous interval's value |
| `DeltaTracking.DeltaTracker.Cycle` | agent/deltatracker/deltatracker.go:95-100 | whole new state |
| `DeltaTracking.ReadingsAreLocal` | agent/network.go:155-198 | a counter's readings under an interval depend on its own events under that interval only |
| `DeltaTracking.DifferencesTelescope` | agent/docker.go:272-298 | in either order of use the differences add up to last minus first modulo 2^64, exactly for a counter that does not decrease |
| `DeltaTracking.GapLosesDifference` | agent/deltatracker/deltatracker.go:86-89 | a counter missing for an interval reads 0 when it returns |
| `NetworkRates.Agent.LoadAndTickNetBaseline` | agent/network.go:142-152 | baseline and elapsed time |
| `NetworkRates.Agent.SumAndTrackPerNicDeltas` | agent/network.go:155-198 | totals, the interval's tracker and the interfaces' rates; other intervals keep theirs |
| `NetworkRates.Agent.ComputeBytesPerSecond` | agent/network.go:201-207 | rates modulo 2^64 |
| `NetworkRates.Agent.ApplyNetworkTotals` | agent/network.go:210-243 | reset or acceptance: whole new state and report |
| `NetworkRates.Agent.UpdateNetworkStats` | agent/network.go:78-90 | one sample: whole new state and report |
| `NetworkRates.TotalsAreSums` | agent/network.go:163-168 | a total is the sum over the selected interfaces and no others, modulo 2^64 |
| `NetworkRates.ReportMeaning` | agent/network.go:142-243 | what is reported against a baseline: the rates of the totals since, in bytes and megabytes, or nothing if one is over 10,000 MB/s |
| `NetworkRates.ReportsSelected` | agent/network.go:163-195 | exactly the selected interfaces are reported |
| `NetworkRates.InterfaceReads` | agent/network.go:170-195 | an interface reports its rate since its own counter in the interval's last sample; a counter that went down counts from 0 |
| `NetworkRates.SampleBecomesBaseline` | agent/network.go:236-243 | an accepted sample becomes its interval's baseline and no other |
| `NetworkRates.WrapIsRejectedExactly` | agent/network.go:201-221 | a total that drops by d within ms milliseconds exceeds 10,000 MB/s if and only if -1000 d modulo 2^64 is at least 10485765243 ms; for drops below 2^64/1000, if and only if 1000 d + 10485765243 ms is at most 2^64 |
| `NetworkRates.RejectedExactly` | agent/network.go:201-221 | the same for any two totals |
| `NetworkRates.WrapResets` | agent/network.go:218-235 | such a drop reports zero and resets every interval |
| `NetworkRates.FirstSampleIsZero` | agent/network.go:142-152 | the first sample after a reset reports zero for totals and interfaces |
| `NetworkRates.ReportsStayBelow` | agent/network.go:218-243 | no sample reports more than 10,000 MB/s |
| `NetworkRates.BaselineIsLastOwnSample` | agent/network.go:142-243 | in every run the baseline is the interval's own last accepted sample since a reset, or there is none |
| `NetworkRates.InterfaceRateIsOwn` | agent/network.go:155-198 | an interface's rate is taken against its own counter in the interval's last sample, whatever was sampled under other intervals |
| `DockerNetwork.GetNetworkTracker` | agent/docker.go:256-269 | the interval's tracker, created when missing, shared with no other |
| `DockerNetwork.DockerManager.CycleNetworkDeltasForCacheTime` | agent/docker.go:272-279 | only the interval's trackers cycle |
| `DockerNetwork.DockerManager.CalculateNetworkStats` | agent/docker.go:282-324 | trackers set and speeds computed for both directions |
| `DockerNetwork.DockerManager.UpdateContainerStats` | agent/docker.go:381-467 | one container of a poll: trackers, reported speeds and the new read time, whole new state |
| `DockerNetwork.DockerManager.FinishPoll` | agent/docker.go:200-279 | the end of a poll cycles the interval's trackers |
| `DockerNetwork.TrackersFollow` | agent/docker.go:256-298 | over every run the trackers hold what the reads and cycles of their own interval left |
| `DockerNetwork.ReadTimesAreLast` | agent/docker.go:381-467 | over every run the read time stored for a container is that of its last read under whatever interval, unless it was forgotten |
| `DockerNetwork.SpeedIsOwnDifference` | agent/docker.go:282-324 | over every run the speed reported is the interval's own difference over the time since the container's last read under whatever interval, and 0 without one |
| `DockerNetwork.SpeedMeaning` | agent/docker.go:300-322 | a speed is the difference for each second, 0 in no time and above 5 GB/s |
| `DockerNetwork.OwnDifferenceSpansInterval` | agent/docker.go:272-298 | polled once in each round of the interval, that difference is the one to the total of the interval's last poll |
| `DockerNetwork.ClockIsOwnExactly` | agent/docker.go:300-316 | over every run the time divided by starts at the interval's own last read if and only if no other interval has read the container, at another time, since |
| `DockerNetwork.SpeedIsRightUnlessReadElsewhere` | agent/docker.go:282-324 | so the speed is the interval's own in that case; otherwise the same difference is divided by less time |
| `DockerNetwork.OtherIntervalsShortenTheClock` | agent/docker.go:300-316 | a run of the manager in which a speed is reported sixty times too high |
| `DockerLogs.DecodeFrames` | agent/docker.go:720-758 | the loop computes the specified decoding, with the error of the stream's end |
| `DockerLogs.DecodeDockerLogStream` | agent/docker.go:714-758 | the same for multiplexed streams; others are copied up to 5 MiB |
| `DockerLogs.OutputIsBounded` | agent/docker.go:741-757 | whatever the bytes, at most 5 MiB come out |
| `DockerLogs.CutOffGivesPrefix` | agent/docker.go:724-756 | a stream cut off decodes to a prefix, without a new error |
| `DockerLogs.SizeRoundTrip` | agent/docker.go:732 | the length in a header is read as it was written |
| `DockerLogs.WireFormat` | agent/docker.go:724-732 | a frame on the wire: the length is in the last four bytes of the header, the most significant first |
| `DockerLogs.DecodeAccepted` | agent/docker.go:724-757 | accepted frames yield their payloads whatever bytes follow |
| `DockerLogs.DecodeStopped` | agent/docker.go:737-748 | the first frame not accepted ends decoding, with an error exactly if it is too large |
| `DockerLogs.DecodeYieldsLongestPrefix` | agent/docker.go:714-758 | frames of at most 1 MiB yield the payloads of the longest prefix that fits in 5 MiB |
| `DockerLogs.DecodeFailsExactly` | agent/docker.go:737-739 | decoding fails if and only if a frame over 1 MiB comes before the payloads exceed 5 MiB |
| `DockerLogs.FailsExactlyWhen` | agent/docker.go:737-748 | the same in terms of the frames' sizes alone |
| `GpuAverages.GPUManager.CalculateGPUAverage` | agent/gpu.go:304-337 | the average, and what is remembered of it |
| `GpuAverages.GPUManager.CalculateIntelGPUUsage` | agent/gpu.go:358-371 | every engine's mean and the highest of them |
| `GpuAverages.GPUManager.GetCurrentData` | agent/gpu.go:258-279 | every card is reported once, and its snapshot renewed under this interval only |
| `GpuAverages.PollReturnsReadings` | agent/gpu.go:258-279 | a poll returns the card's present temperature and memory to two decimals, and its name, with its id if another card has that name |
| `GpuAverages.PollTellsApart` | agent/gpu.go:270-273 | cards of one name are returned under different names |
| `GpuAverages.PollWithoutSamples` | agent/gpu.go:308-318 | without new samples a card that shows no temperature and memory reads 0, any other its last average |
| `GpuAverages.DifferencesAreOwnSamples` | agent/gpu.go:340-355 | at any time an interval's differences are what was collected since its own last poll |
| `GpuAverages.AverageIsOwnMean` | agent/gpu.go:304-371 | a poll reports the mean of exactly those samples |
| `GpuAverages.SamplesAreAccountedFor` | agent/gpu.go:258-393 | under every interval the usage averaged, the usage passed over by polls whose count wraps to 0, and the usage to come add up to all that was collected |
| `GpuAverages.EverySampleAveragedOnce` | agent/gpu.go:258-393 | polled before 2^32 samples have come in, an interval averages every sample exactly once |
| `GpuAverages.EverySampleCountedOnce` | agent/gpu.go:340-345 | and so do the counts, modulo 2^32 |
| `Systems.System.GetContext` | internal/hub/systems/system.go:364-369 | an existing context is kept |
| `Systems.SystemManager.AddSystem` | internal/hub/systems/system_manager.go:235-252 | registry and started updaters after every outcome; one live updater per id is kept |
| `Systems.SystemManager.RemoveSystem` | internal/hub/systems/system_manager.go:257-273 | the updater under the id, and no other, is stopped |
| `Systems.SystemManager.AddRecord` | internal/hub/systems/system_manager.go:279-296 | what ran under the id is stopped before the new system starts; a record without host leaves none |
| `Systems.SystemManager.AddWebSocketSystem` | internal/hub/systems/system_manager.go:301-315 | a fresh system with its connection replaces any other |
| `Systems.SystemManager.OnTokenRotated` | internal/hub/systems/system_manager.go:125-138 | only a system with a connection is removed |
| `Systems.SystemManager.OnRecordAfterUpdateSuccess` | internal/hub/systems/system_manager.go:173-223 | registry after every status transition, and exactly which effects it raises |
| `Systems.RaisesMeaning` | internal/hub/systems/system_manager.go:182-222 | a pause, and a resumption without a connection, deactivate the alerts; a stored system that is up has its thresholds evaluated; a change between up and down raises the status alert; nothing else is raised, and nothing twice |
| `Systems.OneLiveUpdater` | internal/hub/systems/system_manager.go:235-315 | reads off from the invariant that an id has at most one live updater, and one exactly while it is stored; the result lies in the methods that keep the invariant: AddSystem, RemoveSystem, AddRecord, AddWebSocketSystem, OnTokenRotated, OnRecordAfterUpdateSuccess and OnRecordAfterDeleteSuccess |
| `Systems.AlertsAreChanges` | internal/hub/systems/system_manager.go:173-223 | over every sequence of statuses of a stored system, the status alerts that the hook raises are the changes between up and down |
| `Systems.ReportsAlternateExactly` | internal/hub/systems/system_manager.go:182-222 | these alternate if and only if every stretch between pauses that changes starts with the status last reported |
| `Systems.ReportsAlternate` | internal/hub/systems/system_manager.go:216-222 | without pauses they alternate |
| `Systems.PauseHidesRecovery` | internal/hub/systems/system_manager.go:182-198 | a run of updates with a pause in which the hook raises two "down" alerts in a row |
| `Realtime.AcquireCounts` | internal/hub/systems/system_realtime.go:48-60 | a new subscription keeps every count right modulo 256 |
| `Realtime.ReleaseCountsExactly` | internal/hub/systems/system_realtime.go:121-131 | an ended one does if and only if it is not one of 257 (or one more than another multiple of 256) |
| `Realtime.SystemManager.AddRealtimeSubscription` | internal/hub/systems/system_realtime.go:50-58 | count and worker |
| `Realtime.SystemManager.RemoveRealtimeSubscription` | internal/hub/systems/system_realtime.go:121-132 | count and worker |
| `Realtime.SystemManager.OnRealtimeSubscribeRequest` | internal/hub/systems/system_realtime.go:41-70 | counts equal the clients' subscriptions, and the worker runs exactly while there are any, in whatever order the keys are visited |
| `Realtime.SystemManager.OnRealtimeConnectRequest` | internal/hub/systems/system_realtime.go:29-37 | the same after a disconnection |
| `Realtime.FewEnough` | internal/hub/systems/system_realtime.go:41-70 | 255 subscriptions to a system and one new key each are few enough |
| `Realtime.CountIsNumber` | internal/hub/systems/system_realtime.go:14-17 | up to 255 the count is the number of subscriptions |
| `ExpiryMap.ExpiryMap.Set` | internal/hub/expirymap/expirymap.go:31-36 | whole new state |
| `ExpiryMap.ExpiryMap.GetOk` | internal/hub/expirymap/expirymap.go:40-53 | answer and lazy removal |
| `ExpiryMap.ExpiryMap.GetByValue` | internal/hub/expirymap/expirymap.go:56-68 | only a live binding is returned; the search ends at the first match |
| `ExpiryMap.ExpiryMap.Cleanup` | internal/hub/expirymap/expirymap.go:97-104 | exactly the expired entries go |
| `ExpiryMap.LookupIsPlain` | internal/hub/expirymap/expirymap.go:31-104 | over every run with a clock that does not go back, a lookup answers as the plain map of last-set bindings filtered by expiry |
| `ExpiryMap.LookupExactly` | internal/hub/expirymap/expirymap.go:31-53 | that is, with what was set last and not removed since, until its time to live is over |
| `ExpiryMap.FoundIsLive` | internal/hub/expirymap/expirymap.go:56-68 | a search by value finds a live binding of the plain map |
| `ExpiryMap.SearchMissesExactly` | internal/hub/expirymap/expirymap.go:56-68 | it gives up while a live binding of the value exists if and only if the first match visited is expired and a later one is live |
| `ExpiryMap.SearchCanMissLiveBinding` | internal/hub/expirymap/expirymap.go:57-66 | this happens; searching again succeeds |

## Left out

- ApplyJobRuns.CrashTransparency: says nothing of the message and finish time of a status, which a recovering agent may report differently, because they are read from the clock and the log at that moment.
- ApplyJobRuns.RunKeepsInv: assumes that no script outlives its own job's timeout, without which the property is false (`ApplyJobRuns.MisattributedExactlyWhen`).
- PackageApply.PkgUpdateManager.StartApply: is one atomic step, and so is finalizing a job; the gap before the job file is written, the gap before it is removed, and failures to write it are not modelled. The exit file appears with its content at once.
- PackageApply.PkgUpdateManager.Refresh: the package managers' commands and their output are a parameter; holding packages by hand and the commands' own parsers are not modelled.
- RequestManager.MessageOwnership: requests are numbered instead of being heap objects; channels and contexts are fields of a request.
- SmartManager.MergeDeviceLists: trimming and lower-casing cover ASCII white space and letters only.
- SmartManager.SmartManager.ParseSmartOutput: which parsers accept the output, and which one is detected from it, are parameters; the parsers' own decoding is not modelled.
- StatsAverages.AverageSystemStats: models the CPU, memory, network, disk, bandwidth, I/O, battery, core, interface and extra-disk fields; swap, load averages, temperatures, GPU data and the CPU breakdown are averaged in the same way and would add only easy members.
- ContainerAverages.AverageContainerStats: returns a map, as the source's list has no fixed order; float rounding of very large byte rates is not modelled.
- Rollup.RecordManager.CreateLongerRecords: the decoding of records is not modelled; a record carries its contents.
- StatusAlerts.NotificationsAreFaithful: assumes that the queue is worked off before the next report, without which it is false (`StatusAlerts.UpOvertakesSchedule`). Deleted alerts, quiet hours and the delivery of notifications are not modelled.
- ThresholdAlerts.AlertManager.HandleSystemAlerts: sends in the order of the records, where the source starts a goroutine for each; arithmetic is over reals, so float rounding is left out; a disk's used percentage and the texts of notifications are not computed.
- ThresholdRerun.SecondEvaluationIsSilent: gives a sufficient condition for given values, because rows that leave readings standing may still average to the same side of the threshold; what is necessary for all values is `ThresholdPatterns.SilentExactly`. The live values need not agree with the rows.
- AlertHistory.RunKeepsHistory: is about runs of saves that were loaded with the stored flag or resolve an alert loaded as triggered (`AlertHistory.RunIsExactExactly` says that no other run stays exact); alerts are created untriggered; rows created at the same time are pruned in order of insertion.
- NetworkRates.Agent.InitializeNetIoStats: the detected interfaces are a parameter; the selection by name patterns is not modelled.
- DockerNetwork.DockerManager.CalculateNetworkStats: CPU and memory of containers are not modelled.
- DockerNetwork.DockerManager.UpdateContainerStats: a read that fails is a container forgotten; the entry without a read time that a failed retry leaves behind is not modelled, so the next speed is 0 here and next to 0 in the source.
- GpuAverages.AverageIsOwnMean: the collectors' parsing is not modelled; a sample adds its readings and one to the count.
- DockerLogs.DecodeDockerLogStream: stripping escape sequences from the decoded text is not modelled.
- Systems.SystemManager.AddSystem: requires a system not started before, as all callers create one; manager calls are atomic, and connections are reduced to whether there is one.
- Realtime.SystemManager.OnRealtimeSubscribeRequest: handlers are atomic; the worker's fetching, and its end when the ticker stops, are not modelled.
- ExpiryMap.ExpiryMap.RemovebyValue: is modelled but not part of the runs, because its result depends on the order of the map and on whether an expired entry was cleaned up.
- Process execution, SSH, WebSocket, CBOR and JSON encodings, the database and the file system appear only as reads and writes of maps and sequences.
- The connection manager, disk, CPU, sensor and systemd readings, vendor-specific GPU readings, agent registration, configuration files, users, migrations, self-update and the web interface would add only easy members or repeat the counter logic above.
