# A verified model of a JMeter load-test platform's backend

The platform runs JMeter test plans on a pool of load generators. It queues executions, leases the
generators, starts and stops JMeter, reads its result files while they grow, rewrites test plans
before each run, splits CSV data over the generators, and keeps reports, logs and schedules. This
project models that logic and proves what it promises.

**Live metrics** (`Jtl`, `MetricBuckets`, `MetricRows`, `MetricFigures`, `IncrementalMetrics`,
`MetricRefinement`, `MetricEquivalence`, `FinalParse`, `Numbers`, `ByteStrings`). A reader polls a
growing result file, keeps a byte offset, an unfinished line and the buckets of recent windows,
saves changed buckets, acknowledges them and forgets old ones. It is a class with the source's
fields, proved against a step function; that function is proved to consume every byte once and to
leave the stored table equal to the one-pass parse of the samples that passed its watermark. Every
figure of a row is told from the samples of its window, up to the rounding. How a file is divided
into polls turns out not to matter exactly when no sample is more than one window late; otherwise
some division loses one.

**Execution lifecycle** (`ExecutionTables`, `CommitFacts`, `Lifecycle`, `LifecycleInvariant`,
`LifecycleFrames`, `LifecycleSteps`, `LifecycleLaunchSteps`, `LifecycleStepProof`,
`LifecycleHistory`, `LifecycleEntries`, `LifecycleRows`, `LifecycleProgress`, `LifecycleStuck`,
`LifecycleCancels`, `LifecycleWitnesses`). `Tables` holds the testcase, report, queue, run and lease
rows and updates them in place, each method proved against the write it commits. `Lifecycle`
interleaves these commits freely: starts, JMeter runners and stops carry a program counter, and
every event is one commit. What each event makes of every row of every table is told from event and
state, without the commits. One invariant is kept by all 27 events; from it follow the safety
properties of all runs, exact causes for the two shapes an execution can get stuck in, and exactly
which cancels are lost. No reachable state is a deadlock: left to themselves the processes come to
rest within a bounded number of steps, and then no report runs and no generator is taken.

**Test plan rewriting** (`JmxTree`, `ThreadGroups`, `RunOverrides`, `RunThreads`, `ListedThreads`,
`Pacing`, `ListedPacing`, `ThreadAccounting`, `ErrorSampleInjection`, `ErrorCollector`, `Decimals`).
Plans are ordered trees of node and hashTree pairs. Listing and thread rewriting go in document
order, pacing along the pair walk; both are proved to number the thread groups alike, so that an
override lands on the group it was picked for: what the listed group's properties and its timer then
hold is told from the overrides and the group alone. Injected timers, assertions and collectors are
proved idempotent and erasable.

**Smaller parts**: dealing CSV lines out (`CsvSharding`), log rotation (`LogRotation`,
`LogHistory`), trimming a UTF-8 log (`Utf8`, `LogTrim`; section 3 of RFC 3629), the next run of a
schedule (`Schedule`), transaction statistics against overall metrics (`Transactions`), and the
collection of error samples (`ErrorSamples`).

What holds only under a condition is stated with that condition in both directions:

- the claim (`api/app/services/testcase.py:1234`) checks the session's copy of the entry. The dispatcher
  last refreshed it at `api/app/services/execution_queue.py:160` and no commit expires it
  (`api/app/db/session.py:24`), so the claim never refuses. A cancel is therefore final if and only if
  it does not fall between that refresh and the claim; one that does is undone by the claim, or
  overwritten by the dispatcher's handler for unexpected errors (lines 178-187), and by nothing else;
- a testcase has one active entry per region in every run without such a cancel, and two as soon as a
  claim follows one after the pair has been queued again; a restart leaves one;
- an entry is left running without a report exactly by a business error between its claim and its
  report, and left running with an ended report exactly by the timeout scan; only a restart ends the
  first, only a restart or a user's stop already under way ends the second;
- two reports of a testcase come to run in one region exactly when a start adds its report while
  another runs there: the region was looked at when slaves were chosen
  (`api/app/services/testcase.py:973`) and is not looked at again;
- a trimmed log keeps its byte limit exactly when the text fits as it is or the limit exceeds the
  notice's 39 bytes, because a slice of the last zero bytes is the whole text;
- in every state of a run each log file holds lines of its own day only, if and only if every line is
  of the day read after it and the reading before it agrees or the line is the first in its file;
- the one-pass parser and the polling reader take the same samples of a file exactly when no row longer
  or shorter than the header reads as one; whatever they differ in, the final parse settles;
- a chunk of a CSV file reads back as its header and rows exactly when no piece ending in a bare CR
  meets one starting with LF;
- the saved `Total` row is the merge of all transactions exactly when none is called `Total` or no
  other exists;
- an override that leaves `enabled` out is honoured for threads but never paces its group.

`dafny verify dfyconfig.toml` checks the project with Dafny 4.11.

## Model

| member | source | states |
|---|---|---|
| `Numbers.PercentileCell` | api/app/services/report_metrics.py:135-147 | A percentile lies between the two ranks it interpolates, in any sorted list |
| `Numbers.PercentileRange` | api/app/services/report_metrics.py:135-147 | A percentile lies between minimum and maximum and hits both ends exactly |
| `Numbers.PercentileMonotone` | api/app/services/report_metrics.py:135-147 | A percentile never falls as p grows, across interpolation cells |
| `Numbers.PercentileInterpolates` | api/app/services/report_metrics.py:135-147 | Between two ranks a percentile goes straight from the one value to the next |
| `Jtl.SplitIsExact` | api/app/services/report_metrics.py:288-290 | Splitting at newlines loses no byte and cuts nowhere else |
| `Jtl.SplitInPieces` | api/app/services/report_metrics.py:288-290 | Reading in two pieces, the unfinished line carried over, yields the lines of the whole |
| `Jtl.SplitOfUnsplit` | api/app/services/report_metrics.py:288-291 | Lines written with their newlines are read back as they were |
| `Jtl.SamplesConcat` | api/app/services/report_metrics.py:291-319 | The samples of two runs of lines are those of the lines together, the header carried over |
| `Jtl.StripCrCuts` | api/app/services/report_metrics.py:292 | Of a line only carriage returns go, and all of them at its end |
| `Jtl.RowOfColumns` | api/app/services/report_metrics.py:302-304 | A row of the header's length has a value for every column, a repeated column its last |
| `Jtl.IsTrueExactly` | api/app/services/report_metrics.py:168 | A sample succeeded exactly when its text reads "true" in lower case |
| `Jtl.RowReadsAs` | api/app/services/report_metrics.py:160-175 | A row with time, elapsed time and success is a sample exactly when its numbers read and its time is positive, and then has just these values; thread counts come from the second column only when the first is empty |
| `Jtl.RowLacksSample` | api/app/services/report_metrics.py:164-165 | A row without one of the three, or with an empty one, is no sample |
| `Jtl.ThreadsNormalized` | api/app/services/report_metrics.py:116-132 | One slave shows its own count; several show one slave's count times their number, or the count itself when it is above one slave's share, and never more than the total |
| `MetricBuckets.BucketMeaning` | api/app/services/report_metrics.py:154-186 | A window has a bucket exactly when a sample falls into it, and the bucket holds exactly that window: elapsed times, count, failures, thread names, highest thread count |
| `MetricBuckets.P95AtMostP99` | api/app/services/report_metrics.py:189-209 | Every metric row has p95 at most p99, rounding included |
| `MetricFigures.KeyIsItsWindow` | api/app/services/report_metrics.py:177 | A sample is counted under a window exactly when its time lies in it |
| `MetricFigures.SlotHolds` | api/app/services/report_metrics.py:154-186 | A window's samples are those of the file that lie in it, each as often as the file has it |
| `MetricFigures.MetricTells` | api/app/services/report_metrics.py:189-209 | Each row, told from the samples of its window alone: qps times the window seconds is their number, the average times their number their sum, the error rate the failed share in percent, percentiles the interpolation between their ranks, all within the rounding; counts and active threads exactly |
| `MetricFigures.FiguresWithin` | api/app/services/report_metrics.py:189-209 | Besides, bounds on a window's elapsed times bound its average and percentiles, rounding included, and the error rate is a percentage |
| `MetricFigures.BatchTells` | api/app/services/report_metrics.py:212-249 | One row for each window that holds a sample, in ascending order, each told so, and each carrying the highest rate of all |
| `MetricBuckets.AppendMetricRow` | api/app/services/report_metrics.py:154-186 | One row updates the buckets as the row's sample does, or not at all when it is skipped |
| `MetricBuckets.CollectRows` | api/app/services/report_metrics.py:219-224 | The rows of the selected buckets in the order of their windows |
| `MetricBuckets.MetricsFromBuckets` | api/app/services/report_metrics.py:212-228 | Rows in window order, each carrying the running peak, and that peak |
| `MetricBuckets.ParseJtlMetrics` | api/app/services/report_metrics.py:231-249 | The one-pass parser returns the batch metrics of the file's samples |
| `MetricRows.MetricsFromDirty` | api/app/services/report_metrics.py:212-228 | The returned rows are one for each selected window and no other; the peak covers them and is the old one, zero or attained |
| `IncrementalMetrics.PollReturnsDirty` | api/app/services/report_metrics.py:263-328 | A poll that returns rows returns one for each dirty window |
| `IncrementalMetrics.ReplacedFileStartsOver` | api/app/services/report_metrics.py:263-290 | A file that was replaced or cut is polled as by a reader that knows nothing |
| `IncrementalMetrics.IncrementalMetricState.Reset` | api/app/services/report_metrics.py:252-260 | All fields but the file identity start over |
| `IncrementalMetrics.IncrementalMetricState.ConsumeLine` | api/app/services/report_metrics.py:291-319 | One line changes the state as the step function says: header, skipped, dropped by the watermark, or aggregated |
| `IncrementalMetrics.IncrementalMetricState.ParseIncremental` | api/app/services/report_metrics.py:263-328 | A poll leaves the state and returns the rows of the specified poll, including missing, unreadable, replaced and truncated files |
| `IncrementalMetrics.IncrementalMetricState.Acknowledge` | api/app/services/report_metrics.py:331-336 | The acknowledged windows are clean, the watermark has moved and older buckets are gone, as specified |
| `IncrementalMetrics.SnapshotTable.Save` | api/app/services/report_metrics.py:376-406 | The table is the old one with every row upserted under its window |
| `IncrementalMetrics.RefreshRunning` | api/app/services/report_metrics.py:496-507 | One refresh polls, saves and acknowledges; nothing is acknowledged when the save fails |
| `MetricRefinement.ConsumedExactlyOnce` | api/app/services/report_metrics.py:277-290 | After any polls of an append-only file the consumed lines and the pending bytes are exactly the file up to the offset |
| `MetricRefinement.ReplacementForgets` | api/app/services/report_metrics.py:263-290 | From a poll of a replaced file on, the reader goes on as if it had begun with it |
| `MetricRefinement.RunSettles` | api/app/services/report_metrics.py:263-336 | After any run of polls, saves and failed saves, memory and table together hold every accepted sample's window, dirty windows are in memory, and the peak covers all |
| `MetricRefinement.TableIsBatchOfAccepted` | api/app/services/report_metrics.py:231-336 | With nothing left dirty the listed snapshots are the one-pass metrics of the samples that passed the watermark |
| `MetricRefinement.PeakIsBatchPeak` | api/app/services/report_metrics.py:212-228 | The reader's peak is the peak of the one-pass metrics of the accepted samples |
| `MetricRefinement.TwoBucketsRemain` | api/app/services/report_metrics.py:331-336 | After an acknowledged poll at most two buckets remain, both within one window of the latest |
| `MetricEquivalence.TimelyKeepsAll` | api/app/services/report_metrics.py:305-310 | When no sample is more than one window behind an earlier one, nothing is dropped in any division |
| `MetricEquivalence.TimelyRefinesBatch` | api/app/services/report_metrics.py:231-336 | On such a file the listed snapshots equal the one-pass result in every column |
| `MetricEquivalence.LateSampleIsLost` | api/app/services/report_metrics.py:305-310 | A later sample than that is lost for some division into two polls |
| `MetricEquivalence.DivisionIndependentIffTimely` | api/app/services/report_metrics.py:231-336 | The result is independent of the division into polls if and only if no sample is more than one window late |
| `MetricEquivalence.PoppedStaysPopped` | api/app/services/report_metrics.py:305-336 | A bucket once popped is never created again |
| `MetricEquivalence.FinalBatchRepairs` | api/app/services/report_metrics.py:355-406 | Saving a one-pass result that saw at least the accepted samples makes the listing that result, whatever the polls left |
| `FinalParse.OnePassTakes` | api/app/services/report_metrics.py:231-249 | The one-pass parser takes the polling reader's samples and, besides, exactly those of rows longer or shorter than the header |
| `FinalParse.DictRowTells` | api/app/services/report_metrics.py:241-244 | A column's value in the one-pass parser is the one at its last place in the header, if the row reaches that far |
| `FinalParse.ReadersAgreeIffEven` | api/app/services/report_metrics.py:241-244 | Both readers make the same metrics of a file if and only if no row of another length than the header reads as a sample |
| `FinalParse.BlankFirstLineReadsNothing` | api/app/services/report_metrics.py:241-244 | Below a blank first line the one-pass parser takes nothing |
| `FinalParse.PollsEqualOnePassIffEven` | api/app/services/report_metrics.py:231-336 | On a timely file polling equals the one-pass parser if and only if no row of another length reads as a sample |
| `FinalParse.FinalParseRepairs` | api/app/services/report_metrics.py:457-475 | The parser's run over the finished file, its unterminated last row included, makes the listing its own result whatever the polls left |
| `ExecutionTables.Tables.FindActiveEntry` | api/app/crud/execution_queue.py:88-103 | Finds an active entry of the testcase and region exactly when there is one |
| `ExecutionTables.Tables.Enqueue` | api/app/services/execution_queue.py:58-87 | Refused when an active entry exists or the testcase does not, changing nothing; otherwise adds a pending entry and sets the testcase waiting |
| `ExecutionTables.Tables.Cancel` | api/app/services/execution_queue.py:99-117 | Cancels a pending entry and marks its testcase; refuses any other |
| `ExecutionTables.Tables.Claim` | api/app/services/testcase.py:1230-1240 | Checks the status the session saw at its last refresh, and then sets the row running whatever it holds |
| `ExecutionTables.Tables.Bind` | api/app/services/testcase.py:1243-1261 | Gives a running entry its report; refuses any other |
| `ExecutionTables.Tables.LeaseNodes` | api/app/services/execution_node.py:87-139 | Refused when a requested node is leased, changing nothing; otherwise each requested row is leased to the report on its node, every other row is as it was, and there are no further rows |
| `ExecutionTables.Tables.ReleaseByReport` | api/app/services/execution_node.py:142-168 | Exactly the leased rows of the report become released, keeping report and node; every other row and table is as it was |
| `ExecutionTables.Tables.MarkActiveLost` | api/app/services/execution_node.py:171-188 | Every active lease becomes lost and no other row changes |
| `ExecutionTables.Tables.MarkRunStartFailed` | api/app/services/testcase.py:1210-1227 | Fails testcase and report and, when queued, the report's entry |
| `ExecutionTables.Tables.UpdateTestcaseAndReport` | api/app/services/jmeter_runner.py:816-845 | Changes nothing once the report has ended; else testcase and report get the given status and the report's waiting or running entry the matching one, and nothing else changes |
| `ExecutionTables.Tables.MarkStopped` | api/app/services/testcase.py:1338-1361 | Fails testcase, report and the report's entry |
| `ExecutionTables.Tables.MarkTimedOut` | api/app/services/timeout_scanner.py:82-87 | Fails testcase and report and releases the leases; the queue is not touched |
| `ExecutionTables.Tables.RecoverStuckTasks` | api/app/main.py:42-111 | The tables after recovery are those of the recovery function |
| `ExecutionTables.RecoveryIsQuietAndIdempotent` | api/app/main.py:42-120 | From any tables recovery leaves nothing running, active or leased; running testcases and reports are failed, running entries failed, leases and open runs lost, every other row kept; done twice is done once |
| `Lifecycle.FinalOf` | api/app/services/jmeter_runner.py:664-681 | Success is called back exactly for exit code 0, no failed output and, in debug runs, no error in the log |
| `LifecycleStepProof.StepInv` | api/app/services/testcase.py:923-1207 | Every one of the 27 events of starts, runners, stops, queue and restart keeps the invariant |
| `LifecycleStepProof.ReachableInv` | api/app/services/testcase.py:923-1207 | The invariant holds in every reachable state of every interleaving |
| `LifecycleLaunchSteps.LeaseKeeps` | api/app/services/testcase.py:1166-1185 | Leasing, granted or refused, keeps the invariant: one lease per node, each with a process that will release it |
| `LifecycleLaunchSteps.LaunchKeeps` | api/app/services/testcase.py:1187-1195 | Launching hands the leases and the entry over to the runner |
| `LifecycleLaunchSteps.RefuseLaunchKeeps` | api/app/services/jmeter_runner.py:145-161 | A launch whose run record cannot be created keeps the invariant |
| `LifecycleLaunchSteps.MarkStartFailedKeeps` | api/app/services/testcase.py:1175-1206 | The failure path closes the entry and still owes the leases |
| `LifecycleLaunchSteps.SettleKeeps` | api/app/services/execution_queue.py:189-195 | The dispatcher's look at the report closes an ended one's entry or leaves it to the runner |
| `LifecycleSteps.BindKeeps` | api/app/services/testcase.py:1156-1164 | Binding is never refused once claimed, and gives the entry a report no other has |
| `LifecycleStepProof.CallbackKeeps` | api/app/services/jmeter_runner.py:816-845 | A callback ends report and entry together, or neither |
| `LifecycleStepProof.StopFinishKeeps` | api/app/services/testcase.py:1319-1361 | The final write of a stop or of the timeout scan keeps the invariant |
| `LifecycleHistory.StepAdvances` | api/app/services/jmeter_runner.py:816-845 | No event moves or rebinds an entry, makes one pending again or cancels one that is not pending, restarts or un-fails a report, or changes an ended lease |
| `LifecycleHistory.RunsAdvance` | api/app/services/jmeter_runner.py:816-845 | The same from any state of a run to any later one |
| `LifecycleHistory.LeasesAreSafe` | api/app/services/execution_node.py:87-188 | In every reachable state a node is leased at most once, an active lease has a start between lease and launch or an unfinished runner, and at rest nothing is leased |
| `LifecycleHistory.QueueIsSafe` | api/app/services/execution_queue.py:58-117 | In every reachable state: one pending entry per testcase and region, no report on pending or canceled entries, no report on two entries |
| `LifecycleHistory.SuccessOnlyByCallback` | api/app/services/jmeter_runner.py:664-681 | A report becomes successful if and only if a clean exit is called back while it still runs |
| `LifecycleHistory.RunningOnlyFromCreation` | api/app/services/testcase.py:1124-1154 | A report comes to run if and only if a start creates it |
| `LifecycleEntries.EntryStep` | api/app/services/execution_queue.py:140-219 | What each event does to each queue entry, told from the entry alone |
| `LifecycleRows.CaseStep` | api/app/services/testcase.py:923-1207 | The next status of every testcase under every event, told from event and state: the verdict of the exit while the report runs, waiting, canceled, running or failed; no event touches one otherwise |
| `LifecycleRows.ReportRowStep` | api/app/services/jmeter_runner.py:816-845 | The next row of every report under every event, status and reason; no event touches one otherwise and only a start adds one |
| `LifecycleRows.LeaseStep` | api/app/services/execution_node.py:87-188 | The next row of every lease under every event; no event touches one otherwise |
| `LifecycleRows.RunStep` | api/app/services/jmeter_runner.py:145-161 | The next status of every run record under every event |
| `LifecycleRows.StartRowStep` | api/app/services/testcase.py:923-1207 | Where every start goes next, and what it picks up, under every event |
| `LifecycleRows.RunnerStep` | api/app/services/jmeter_runner.py:664-681 | Where every runner goes next, with its exit and verdict, under every event; only a launch makes one |
| `LifecycleRows.StopStep` | api/app/services/testcase.py:1319-1361 | Where every stop goes next under every event |
| `LifecycleRows.GrantTakesItsNodes` | api/app/services/execution_node.py:119-130 | A request for slaves is granted exactly when none of them is taken; then each has a lease for the report, the taken nodes are the old ones and these, and no lease changes; else nothing changes |
| `LifecycleRows.ReleaseEndsItsLeases` | api/app/services/execution_node.py:142-168 | Short of a restart a lease ends exactly by a release of its own report, and then it is released; a release adds no row and ends no other report's lease |
| `LifecycleRows.CallbackBringsTogether` | api/app/services/jmeter_runner.py:816-845 | A callback on a running report brings testcase, report and bound entry to the verdict of the exit together, and no other testcase; on an ended one it changes none |
| `LifecycleRows.ChoosesExactlyWhenFree` | api/app/services/testcase.py:968-1004 | A start may choose slaves exactly when none is taken and, in a named region, there is one and no report of its testcase runs there; a local one chooses none |
| `LifecycleRows.RegionDoubledExactlyBy` | api/app/services/testcase.py:971-978 | One running report per testcase and region is lost if and only if a start adds its report while another one runs there |
| `LifecycleProgress.StartGoesOn` | api/app/services/testcase.py:923-1207 | A start that has not ended always has a next step of its own, and need not give up for it unless it has yet to choose slaves in a named region where a report of its testcase runs |
| `LifecycleProgress.RestIsWhenNoneMoves` | api/app/services/testcase.py:923-1207 | No reachable state is a deadlock: some start, runner or stop can step exactly as long as not all of them have ended |
| `LifecycleProgress.MovesAreBounded` | api/app/services/jmeter_runner.py:664-681 | Without new requests the processes together take at most as many steps as the work they had left |
| `LifecycleProgress.ComesToRest` | api/app/services/jmeter_runner.py:664-681 | From every reachable state the processes come to rest by their own steps |
| `LifecycleProgress.RunningReportsAreOwned` | api/app/services/testcase.py:1124-1207 | In every reachable state a report that runs has a start before its launch or a runner before its callback |
| `LifecycleProgress.RestIsClean` | api/app/services/execution_node.py:142-188 | At rest no report runs and no node is taken, every entry still running is stranded or orphaned, and a testcase still set running can be cleared by a user's stop |
| `LifecycleProgress.ClearsExactlyWhenNoneRuns` | api/app/services/testcase.py:1290-1306 | A stop clears a testcase without touching a report exactly when it is set running and none of its reports runs |
| `LifecycleCancels.ClaimNeverRefuses` | api/app/services/testcase.py:1234-1240 | The claim's own check never refuses, because it looks at the copy the dispatcher found pending |
| `LifecycleCancels.RunsExactlyByClaim` | api/app/services/testcase.py:1230-1240 | An entry comes to run if and only if its start claims it, be it still pending or canceled meanwhile |
| `LifecycleCancels.CanceledChangesExactlyBy` | api/app/services/execution_queue.py:160-187 | A canceled entry changes if and only if its own start claims it on the old copy, which makes it running, or meets an unexpected error, which makes it failed |
| `LifecycleCancels.CanceledIsFinalIffUnserved` | api/app/services/execution_queue.py:160-187 | A canceled entry can still change exactly as long as its start is between check and claim |
| `LifecycleCancels.CanceledStays` | api/app/services/execution_queue.py:99-117 | In every run an entry canceled while no start is at it stays as it is for good |
| `LifecycleCancels.EndedStays` | api/app/services/execution_queue.py:213-219 | In every run an entry that succeeded or failed never comes back |
| `LifecycleCancels.ActivatedExactlyBy` | api/app/services/execution_queue.py:58-87 | An entry becomes active if and only if it is queued or a claim revives it from canceled |
| `LifecycleCancels.OneActiveBrokenExactlyBy` | api/app/services/execution_queue.py:58-61 | One active entry per testcase and region is lost if and only if a claim revives a canceled entry whose pair was queued anew |
| `LifecycleCancels.UndisturbedRun` | api/app/services/execution_queue.py:58-61 | One active entry per testcase and region in every state of a run without a cancel between check and claim |
| `LifecycleCancels.CancelIsFinalWhenUndisturbed` | api/app/services/execution_queue.py:99-117 | In such a run a canceled entry stays as it is for good |
| `LifecycleCancels.CancelIsFinalIffUndisturbing` | api/app/services/execution_queue.py:99-117 | A cancel can be overtaken if and only if it falls between check and claim |
| `LifecycleCancels.DisturbingCancelDoubles` | api/app/services/testcase.py:1230-1240 | After any such cancel the pair can be queued again and the claim gives it two active entries |
| `LifecycleStuck.StrandedExactlyBy` | api/app/services/execution_queue.py:173-177 | An entry is left running with no report and no start if and only if its start raises a business error between claim and report |
| `LifecycleStuck.StrandedUntilRestart` | api/app/services/execution_queue.py:65-73 | Such an entry stays so under every event but a restart, which fails it |
| `LifecycleStuck.OrphanedExactlyBy` | api/app/services/timeout_scanner.py:76-88 | An entry is left running with an ended report if and only if the timeout scan ends the report after the start settled |
| `LifecycleStuck.OrphanTimedOut` | api/app/services/timeout_scanner.py:82-86 | The report of such an entry was failed by the timeout scan |
| `LifecycleStuck.OrphanUntilStopOrRestart` | api/app/services/jmeter_runner.py:824-831 | Such an entry stays so except by a restart or a user's stop of its report; the late callback skips it |
| `LifecycleWitnesses.StrandedIsReachable` | api/app/services/testcase.py:1237-1261 | A run from a fresh installation that strands an entry |
| `LifecycleWitnesses.OrphanIsReachable` | api/app/services/timeout_scanner.py:76-88 | A run through claim, bind, lease, launch and timeout that orphans an entry |
| `LifecycleWitnesses.CanceledCanChange` | api/app/services/execution_queue.py:160-187 | A run to a canceled entry that its start's claim sets running and its start's unexpected error sets failed |
| `LifecycleWitnesses.TwoActiveAreReachable` | api/app/services/testcase.py:1230-1240 | A run from a fresh installation to two active entries of one testcase and region |
| `LifecycleWitnesses.TwoRunsInOneRegion` | api/app/services/testcase.py:971-978 | A run from a fresh installation to two running reports of one testcase in one region: both starts found it free |
| `LifecycleWitnesses.StrandedBlocks` | api/app/services/execution_queue.py:58-61 | From a stranded state on no execution of its testcase and region can be queued until a restart |
| `LifecycleWitnesses.OrphanBlocks` | api/app/services/execution_queue.py:58-61 | The same from an orphaned one, as long as no user's stop of it was under way |
| `LifecycleWitnesses.RestartRepairs` | api/app/main.py:42-120 | A restart of any reachable state quiets it, fails stuck entries, leaves one active entry per testcase and region, keeps waiting and ended ones, is idempotent, and makes queueing possible exactly where nothing waits |
| `JmxTree.PairsInHashTree` | api/app/core/jmeter_thread_groups.py:156-163 | The loop yields each node with the hashTree right after it, if any |
| `JmxTree.PairsTell` | api/app/core/jmeter_thread_groups.py:156-173 | The pairs put together are the children; what is paired is a hashTree, and a node is left without one only when none follows |
| `ThreadGroups.KeyNamesOne` | api/app/core/jmeter_thread_groups.py:133-137 | Two equal keys name the same type and the same number |
| `ThreadGroups.KeyReads` | api/app/core/jmeter_thread_groups.py:133-137 | A key is the type, a colon and a numeral that reads as the number |
| `ThreadGroups.GroupsByTag` | api/app/core/jmeter_thread_groups.py:140-149 | Exactly which elements are thread groups of which type, by tag and, for ordinary ones, test class |
| `ThreadGroups.FirstHashIsFirst` | api/app/core/jmeter_thread_groups.py:100-112 | The root hashTree found is the first, and none is found only when there is none |
| `ThreadGroups.OrdersAgree` | api/app/core/jmeter_thread_groups.py:96-173 | On well-formed plans document order and pair walk meet the same thread groups in the same order |
| `ThreadGroups.UnpairedOrdersDiffer` | api/app/core/jmeter_thread_groups.py:156-173 | A group in a hashTree that follows no node is met in document order only |
| `ThreadGroups.ListThreadGroups` | api/app/core/jmeter_thread_groups.py:96-113 | The i-th listed group is the i-th in document order, shown with its numbered key, its name, its type and whether it is on |
| `ThreadGroups.PlanGroups` | api/app/core/jmeter_thread_groups.py:100-112 | The groups of a whole plan are those of its root hashTree |
| `RunOverrides.OverrideByKey` | api/app/core/jmeter_thread_groups.py:233-239 | Under every non-empty key that occurs lies the last override with it, and nothing under any other |
| `RunOverrides.OverrideKeyTold` | api/app/core/jmeter_thread_groups.py:229-230 | An override's key is its key text, or its name when that is empty, without the white space around it and nothing else |
| `RunOverrides.LookupGets` | api/app/core/jmeter_thread_groups.py:242-257 | A group gets the last override under its own key, the last under its testname only when none has its key, or none |
| `RunThreads.SetPropsText` | api/app/core/jmeter_xml_support.py:17-28 | Setting properties changes exactly the named ones that are there |
| `RunThreads.GroupsUpdated` | api/app/core/jmeter_thread_groups.py:266-332 | Every group keeps its number and type and gets exactly the enabled state and threads its override asks for; fixed and disabled groups keep their text |
| `ListedThreads.ListedGroupRuns` | api/app/core/jmeter_thread_groups.py:266-332 | The i-th listed group stays the i-th and runs as its own override asks: switched as it says, and unless off or fixed each property of its type is set to threads, ramp or duration, the override's own in custom mode; everything else is as it was |
| `RunThreads.UpdateKeepsPlan` | api/app/core/jmeter_thread_groups.py:278-332 | Rewriting keeps the plan well formed |
| `RunThreads.SumEnabledThreadGroupThreads` | api/app/core/jmeter_thread_groups.py:116-130 | The sum over the tree is the sum over its enabled thread groups |
| `ListedThreads.ThreadsTold` | api/app/core/jmeter_thread_groups.py:116-130 | An enabled group counts for the number in its first thread property, or for nothing without one or without a text; a disabled one and any other element for nothing |
| `ListedThreads.TextIsFirst` | api/app/core/jmeter_xml_support.py:24-28 | The text under a name is that of the first element with it, and there is none only when no element has it |
| `RunThreads.SumOfUpdatedPlan` | api/app/core/jmeter_thread_groups.py:116-130 | The sum on the rewritten plan, told from the original groups and the overrides |
| `Pacing.OnlyExplicitlyEnabledPace` | api/app/core/jmeter_pacing.py:17-27 | An override takes part exactly when it is explicitly enabled, not fixed and has a key |
| `Pacing.PaceWalksOverTimer` | api/app/core/jmeter_pacing.py:104-126 | Walking over a timer pair just inserted counts nothing and changes nothing |
| `Pacing.PacePairs` | api/app/core/jmeter_pacing.py:87-128 | The loop with its running index computes the paced forest and the next index |
| `Pacing.PaceKeepsGroups` | api/app/core/jmeter_pacing.py:104-126 | Pacing keeps the shape and every group in place, and counts each once |
| `Pacing.PacingLandsOnListedGroup` | api/app/core/jmeter_pacing.py:87-128 | The i-th listed group's own hashTree, and it alone, starts with the timer due to the key it was listed under |
| `ListedPacing.ListedGroupIsPaced` | api/app/core/jmeter_pacing.py:17-128 | When the i-th listed group is enabled and the last explicitly enabled, unfixed override under its key (under its testname only when none has its key) asks for a positive pacing under this name or any, its hashTree starts with an enabled timer whose parameter reads as these milliseconds and an empty hashTree; otherwise nothing is put in front |
| `Pacing.OneKeyOneGroup` | api/app/core/jmeter_pacing.py:106-113 | One override's key paces at most the group listed under it |
| `Pacing.EraseUndoesPacing` | api/app/core/jmeter_pacing.py:82-84 | Erasing the timers gives the plan back |
| `ThreadAccounting.PrepareThreadGroupOverrides` | api/app/services/testcase.py:707-716 | Each custom thread number becomes the smallest that, on all slaves, covers it; every other override and field is kept, in order |
| `ThreadAccounting.GroupCovered` | api/app/services/testcase.py:1015-1024 | One group on all slaves covers what was asked, by less than one slave count more; a fixed one exactly |
| `ThreadAccounting.RecordedTotalCovers` | api/app/services/testcase.py:1015-1056 | The sum on the rewritten and paced plan is fixed value, ceiling of custom or of total per slave; the recorded total covers the demand with an excess below one slave count per group that is not fixed |
| `ErrorSampleInjection.RemoveLeavesNone` | api/app/core/jmeter_error_samples.py:267-294 | After removal no element of that tag and name is left at any depth |
| `ErrorSampleInjection.RemoveKeepsPaired` | api/app/core/jmeter_error_samples.py:267-294 | Removal takes whole pairs |
| `ErrorSampleInjection.RemoveTakesNamedPairs` | api/app/core/jmeter_error_samples.py:267-294 | Removal leaves exactly the pairs of another tag or name, cleaned likewise inside, in their order |
| `ErrorSampleInjection.InjectAsserts` | api/app/core/jmeter_error_samples.py:297-327 | Every walked sampler's own hashTree ends with one enabled assertion of the platform or as many as it had; no sampler appears or goes |
| `ErrorSampleInjection.ScopesAreWalked` | api/app/core/jmeter_error_samples.py:316-321 | The samplers looked at are the HTTP samplers of the walk, in its order |
| `ErrorSampleInjection.InjectKeepsPaired` | api/app/core/jmeter_error_samples.py:297-327 | Injection keeps the plan paired |
| `ErrorSampleInjection.InjectIdempotent` | api/app/core/jmeter_error_samples.py:312-327 | A second injection changes nothing |
| `ErrorSampleInjection.EraseUndoesInjection` | api/app/core/jmeter_error_samples.py:297-327 | Erasing the assertions gives the input, completed with the hashTrees injection made |
| `ErrorSampleInjection.CompleteChangesOnlyMissing` | api/app/core/jmeter_error_samples.py:297-309 | That is the input itself if and only if every sampler had a hashTree |
| `ErrorSampleInjection.ErrorSamplesApplied` | api/app/core/jmeter_error_samples.py:330-340 | The whole pass: paired, no legacy listener, all samplers asserted, idempotent, erasable to the input without legacy listeners |
| `ErrorCollector.CollectorApplied` | api/app/core/jmeter_error_samples.py:343-357 | Exactly one collector whatever there was before, the rest unchanged, idempotent for one path, pairing kept |
| `ErrorCollector.CollectorPlaced` | api/app/core/jmeter_error_samples.py:244-357 | The collector, enabled and writing to the path, comes last in the first test plan's hashTree, or last in the tree when there is no plan |
| `CsvSharding.JoinOfSplit` | api/app/services/testcase.py:647-648 | Splitting into lines with their ends loses nothing |
| `CsvSharding.SplitOfJoin` | api/app/services/testcase.py:648 | Joined pieces split back into themselves if and only if each is a line and none forms a terminator with the next |
| `CsvSharding.SplitTold` | api/app/services/testcase.py:648 | No line holds a terminator before its end, and every line but the last ends in LF, or in a CR no LF follows |
| `CsvSharding.SplitCsvLinesForSlaves` | api/app/services/testcase.py:646-658 | Told from the file's lines: with the flag off or a single line, line k stands in the chunk of slave k mod n at place k div n and chunks hold nothing else; with it on, every chunk starts with the first line and so the others stand; an empty file makes empty chunks |
| `CsvSharding.DealingLosesNothing` | api/app/services/testcase.py:657-658 | Taking the slaves' rows in turn rebuilds the rows in order; row counts differ by at most one |
| `CsvSharding.ChunkReadsBack` | api/app/services/testcase.py:646-658 | A chunk splits into exactly its header and rows if and only if no two of its pieces form a terminator; always when no line ends in a bare CR |
| `LogRotation.FreeNumber` | api/app/core/log_rotation.py:56-61 | The name search ends, at the first free number |
| `LogRotation.SizeOfMore` | api/app/core/log_rotation.py:45-50 | A log is as large as its lines together |
| `LogRotation.DailySizeHandler.Cleanup` | api/app/core/log_rotation.py:28-43 | Deletes exactly the archives dated before the retention |
| `LogRotation.DailySizeHandler.ShouldRollover` | api/app/core/log_rotation.py:45-50 | Cleans up on a new day and asks for a rollover on a new day or over the size |
| `LogRotation.DailySizeHandler.DoRollover` | api/app/core/log_rotation.py:52-65 | Renames the log to the first free name of its day, starts a new one and cleans up |
| `LogRotation.DailySizeHandler.Emit` | api/app/core/log_rotation.py:67-69 | Rolls over if due, appends the line, and dates the log by a second reading of the clock |
| `LogHistory.RunTells` | api/app/core/log_rotation.py:28-69 | After any run archives in order of day and number and then the log hold all lines in order but for whole expired files; numbers leave no gap, nothing is overwritten, only single lines exceed the limit |
| `LogHistory.RollsExactly` | api/app/core/log_rotation.py:45-69 | A write rolls over if and only if the log holds something and is of another day or would exceed the size; then the old lines lie under a name that was free and the log holds the new line alone, else it is appended |
| `LogHistory.NothingOverdue` | api/app/core/log_rotation.py:28-50 | After any run no archive is older than the retention counted from the day of the last cleanup |
| `LogHistory.PureExactly` | api/app/core/log_rotation.py:45-69 | A line keeps every file to its own day if and only if it is of the later reading's day and the readings agree or it is first in its file |
| `LogHistory.RunIsPureExactly` | api/app/core/log_rotation.py:28-69 | In every state of a run, cleanups included, each file holds lines of its own day only, if and only if every line is written so |
| `LogHistory.SameDayRunIsPure` | api/app/core/log_rotation.py:28-69 | So it is when the clock shows each line's own day before and after it is written |
| `LogHistory.ArchiveIsFrozen` | api/app/core/log_rotation.py:52-69 | An archive is never written again: one that mixes days does so until cleanup deletes it |
| `LogHistory.MidnightMixesDays` | api/app/core/log_rotation.py:67-69 | A write across midnight dates a file of one day as the next |
| `Utf8.DecodeOfEncode` | api/app/services/ai_generation.py:72-79 | Decoding an encoded text gives it back |
| `Utf8.CharSpelled` | api/app/services/ai_generation.py:72-79 | The bytes of a character, by its size, read as its code point (section 3 of RFC 3629) |
| `Utf8.DecodeTail` | api/app/services/ai_generation.py:78-79 | Decoding the last bytes keeps exactly the characters that are there whole |
| `LogTrim.TrimKeepsLongestTail` | api/app/services/ai_generation.py:71-80 | Too long a text becomes the notice and the longest end that fits |
| `LogTrim.TrimBoundsExactly` | api/app/services/ai_generation.py:71-80 | The limit is kept if and only if the text fits or the limit exceeds 39 bytes |
| `LogTrim.AppendTells` | api/app/services/ai_generation.py:83-84 | An old notice does not survive a second cut |
| `LogTrim.LogTells` | api/app/services/ai_generation.py:71-84 | After any appends the log is at most 50000 bytes; it is everything when that fits, and else the literal notice and an end of everything |
| `Schedule.NextDaily` | api/app/services/scheduled_task.py:63-67 | Strictly after now, at the time, the earliest such instant, and so not due at once |
| `Schedule.NextWeekly` | api/app/services/scheduled_task.py:69-81 | The same over the named weekdays; the fallbacks without any or with none that exists |
| `Schedule.NextMonthly` | api/app/services/scheduled_task.py:83-95 | The same on the clamped day of the month, across the year's end |
| `Schedule.ComesWithinAWeek` | api/app/services/scheduled_task.py:74-80 | A named weekday comes up within the loop's eight days |
| `Schedule.WeekdaysFollow` | api/app/services/scheduled_task.py:74-80 | 1 January 1970 is a Thursday and weekdays follow each other |
| `Transactions.OverallIsTransaction` | api/app/services/report_transactions.py:352-363 | Every row of the overall metrics is a row of the transaction curves, with the same time and outcome |
| `Transactions.LabelTold` | api/app/services/report_transactions.py:364 | A sample's name is its label, or the second label column when the first is empty, stripped; or the name for nameless ones |
| `Transactions.TransactionReadsAs` | api/app/services/report_transactions.py:352-363 | A row is a transaction sample exactly when its times read, missing ones as 0, and its time is positive, and then has these values |
| `Transactions.ShortRowIsSkipped` | api/app/services/report_transactions.py:352-363 | A row too short for its time or elapsed time is none |
| `Transactions.ParseTransactionStats` | api/app/services/report_transactions.py:113-169 | The loop keeps each group and the total as folds of their own samples |
| `Transactions.OnlyHolds` | api/app/services/report_transactions.py:113-169 | A group is the samples of its name, each as often as the file has it |
| `Transactions.StatsTold` | api/app/services/report_transactions.py:113-169 | A group's figures, told from its samples: how many, how many failed, sum, least and largest elapsed time, first start and last end |
| `Transactions.TotalIsMerge` | api/app/services/report_transactions.py:161-169 | The total is the merge of the groups in any order: samples, failures, sum, maximum, minimum, time span |
| `Transactions.SaveTransactionSnapshots` | api/app/services/report_transactions.py:222-248 | The table is the rows upserted in order |
| `Transactions.SavedTotal` | api/app/services/report_transactions.py:187-189 | The row saved under the name Total is the merge if and only if no sample is called Total or all are; otherwise it is that transaction's own row |
| `Transactions.CollectCurves` | api/app/services/report_transactions.py:346-385 | The buckets per transaction and window |
| `Transactions.CurveIsOfOwnSamples` | api/app/services/report_transactions.py:337-385 | A transaction's curve in a window is the metric bucket of its own samples there |
| `Transactions.CurvesAddUp` | api/app/services/report_transactions.py:337-385 | In every window the transactions' samples and failures add up to the overall ones plus exactly the rows only the transaction parser takes |
| `ErrorSamples.Collection.AppendSampleIfAllowed` | api/app/services/report_error_samples.py:262-279 | Adds a sample exactly when fewer than a hundred are there, fewer than ten of its type, and none with its time, label, thread and response code; counters and keys follow |
| `ErrorSamples.AdmitTells` | api/app/services/report_error_samples.py:253-279 | The same of the specified list |
| `ErrorSamples.Collection.AppendXmlErrorSamples` | api/app/services/report_error_samples.py:282-302 | The samples after scanning the XML files, with both early ends |
| `ErrorSamples.XmlScanTells` | api/app/services/report_error_samples.py:282-302 | The scan admits the failed records of a prefix, and ends within it exactly when the target or the thousandth failure is reached |
| `ErrorSamples.Collection.AppendJtlBackfillSamples` | api/app/services/report_error_samples.py:325-362 | The samples after scanning the result files, with both early ends |
| `ErrorSamples.JtlScanTells` | api/app/services/report_error_samples.py:325-362 | The same over rows, which look at the target before each row and end at the five-thousandth failure |
| `ErrorSamples.CollectErrorSamples` | api/app/services/report_error_samples.py:365-377 | The whole collection, in place, computes the specified list |
| `ErrorSamples.CollectedWithin` | api/app/services/report_error_samples.py:262-380 | Distinct keys, the plan's own samples kept in front, each type and the whole within the limits or what the plan wrote |
| `ErrorSamples.SortIsStable` | api/app/services/report_error_samples.py:190 | The sort is a stable permutation into descending time |
| `ErrorSamples.GroupsAddUp` | api/app/services/report_error_samples.py:191-194 | The group counts add up to the total |
| `ErrorSamples.ViewIsLatestPrefix` | api/app/services/report_error_samples.py:187-196 | The view lists the latest samples in descending time, clamped, with a count for each type |

## Left out

- Queue writes of one request: the check of an enqueue or a cancel and the commit that follows it are one atomic event; two requests that both read before either commits are not modelled. The copy a session keeps is modelled for the claim; other reads see the committed row. A start reads its region's reports and the free slaves in one event. Commits succeed, region texts are already trimmed, and one dispatcher runs at a time.
- `stop_testcase` over several reports is one stop per report; its final commit for all of them together is not modelled.
- ExecutionTables.Tables.CloseEntryOf: requires that at most one entry has the report, which `BoundOnce` of the lifecycle invariant provides; the source takes the first row found.
- Deleting testcases and reports while they run, debug response texts, heartbeats, process ids, and everything outside the tables (signals, SSH, remote engines): the process is an exit code, an output check and a log check chosen freely.
- Jtl.SplitInPieces: one line's CSV fields, `int(text)`, UTF-8 decoding with replacement and `strip` are function values, because the library code that does them is not part of the platform; files that cannot be stat'ed or read are cases of `FileView`.
- FinalParse.ReadersAgreeIffEven: compares the readers where every line is a CSV record of its own, without a quoted newline or a carriage return inside, and the first line is not blank; a record the CSV module rejects ends the one-pass parser with an exception and is left out.
- MetricFigures.FiguresWithin: averages and percentiles are exact reals and `round` is round-half-even on them; binary floating point is left out, and so is the local-time text of a window.
- Plans are values: lxml's in-place changes, aliasing of elements, tail text, comments and namespaces are not modelled; attribute order neither. The pair walk's insertion while walking is kept by `PaceWalksOverTimer`.
- ThreadGroups.ListThreadGroups: the original threads, ramp and duration shown beside each group are left out.
- RunThreads.Reader: numbers are read exactly; `float` rounding above 2^53 is left out. Removing white space around override keys knows ASCII white space only.
- Pacing.Timer: the script's text and its cycle recurrence at run time are left out; likewise the properties of the injected assertion and the save configuration of the collector.
- The parent-sample switch of transaction controllers, CSV file names and debug pressure settings in plans: they change no thread group's number or threads.
- ThreadAccounting.RecordedTotalCovers: the rewriting of file references between thread update and sum (`testcase.py:1051`) is left out.
- CsvSharding.SplitCsvLinesForSlaves: with no slave a non-empty file yields no chunk, as in the source; its caller never asks for that.
- LogRotation: starting on an existing log file, whose day comes from its modification time, and foreign files in the directory are left out; all readings of the clock before a line is written agree.
- Utf8.DecodeIgnore: on ends of a valid encoding it is Python's decoder; how many bytes of other invalid input one skip takes is not modelled. Lone surrogates cannot be encoded in either.
- LogTrim.LogTells: appended lines are taken as they are after `rstrip` and the newline.
- Schedule: the one-off branch, malformed times, a second reading of the clock and daylight saving are left out.
- Transactions.SavedTotal: the rows' derived columns (rates, throughput, averages) and their rounding are left out; the figures they are computed from are proved.
- ErrorSamples.CollectErrorSamples: reading JSON lines, XML and CSV into records, masking and truncation are left out; a record is given, or None for a sample that succeeded.
- Encryption, access control, pagination, configuration, audit logging and file serving: each settled by reading one branch or one query.
