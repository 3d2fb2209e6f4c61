# Monitor: models and proofs

The repository is a small server monitor. Agents send a report every few seconds; a server keeps the latest snapshot
of each machine, averages reports into minutes that it stores in SQLite, evaluates alert rules, and pushes live events
to browsers; a browser shows live snapshots and draws charts of the stored minutes. This project models the parts of it
that hold state and race with one another, and proves what they are for.

Each component comes in the same order. A datatype holds the state, functions say what one operation does to it, and,
where the original changes things in place, a class has the original's fields and methods, each method proved to do what
its function says. Runs and interleavings are then sequences of steps over the same functions, and the theorems are
about every run. Where the surroundings decide (the clock, a write that fails, a context that is done, the order in
which a map is walked), the outcome is a parameter or a nondeterministic choice.

| files | component |
|---|---|
| `MinuteSeries`, `Downsampling`, `DownsamplingLaws`, `ChartSeries`, `ChartLaws` | chart preparation in the browser: the naive minute series, the single-pass reduction, and what a drawn chart may rely on |
| `Accumulation`, `AccumulationLaws` | one minute of reports of one server |
| `Aggregation`, `FlushProtocol`, `AggregationLaws`, `AggregationRuns`, `FlushLaws` | minutes in memory, flushed while reports keep arriving |
| `HistoryStore` | the table of minutes and its paged query |
| `Clock`, `AlertStateMachine` | the state machine of an alert rule |
| `AlertMetrics`, `AlertLog`, `AlertEvaluator`, `AlertProtocol` | evaluation of rules over durable state |
| `ServerRegistry`, `LiveStore`, `Coordination`, `LiveProtocol`, `LiveLaws` | registered servers, live snapshots, and the lock that orders their changes |
| `RuleLogs`, `OfflineAlerts` | what a rule has logged after a sequence of events, and, for offline rules, after any run of reports and sweeps |
| `Hub` | the fan-out of live events to slow readers |
| `ServerSnapshots`, `SnapshotProtocol` | the browser's live list: events race with fetches |
| `ServerCollection`, `CollectionProtocol`, `CollectionLaws` | the browser's list of servers: loads race with changes |
| `Lifecycle`, `LifecycleLaws` | starting and closing the application |
| `Wrappers`, `Sets`, `Sorting`, `StringOrder`, `Folding`, `Protocol`, `HistoryModel`, `LiveModel` | shared notions |

## What the code does not do

Three expectations one might have of the code are false. Each is stated with the exact condition under which it holds.

* A chart shows every minute exactly if the minutes fit the budget? No. A range over budget that alternates between
  values and gaps is emitted whole (`OverBudgetYetComplete`). Every minute is shown exactly if the range fits the budget
  or no minute is redundant (`FullSeriesExactly`); without gaps the budget alone decides (`GapFreeFullSeriesExactly`).
* A stored minute covers every report received for it? No. A report that arrives after its minute was flushed starts a
  new bucket, whose flush replaces the row (`LateReportReplaces`). The row covers every report since the server's last
  removal exactly if they all went into one bucket (`StoredCoversEverythingExactly`).
* Memory never holds anything of a deleted server? Not if the deletion takes effect in the database and yet reports an
  error, for the coordinator then leaves snapshot and buckets alone. Registry and memory stay together exactly if such
  a mutation meets a server without anything in memory, or a name that does not change (`StepExactly`,
  `FailedDeleteExactly`, `FailedUpdateExactly`). `FailedDeleteStrands` and `FailedRenameStrands` are runs of three steps
  after which it goes wrong.

A full evaluation queue falls back to a later look at the server's latest snapshot
(`internal/alerting/evaluator.go:114-142`). That snapshot is taken when a timer fires and queued as an update, so it may
come before events that are dropped later; the end-to-end theorem is about runs in which the queue does not overflow.

## Assumptions

Metric values are reals, and JavaScript's non-finite numbers are values of their own. Token digests do not collide. Every
response of the status endpoint lists each server at most once. The order of names is an arbitrary total preorder.

Database transactions and single statements are atomic and may fail. A statement may also take effect and its caller
still see an error where the code itself can return one after the effect: it reads the returned row
(`internal/servers/service.go:151`) or the number of rows (`internal/servers/service.go:169`,
`internal/servers/service.go:239`, `internal/history/store.go:163`) of a statement that has already been committed. Nothing
is read after the statement in `UpsertMinute` (`internal/history/store.go:58-66`), and in `SaveStateAndEvent`, creation
and token rotation what is read is read before the commit, so an error there undoes the effect. The database is taken at
its word when it reports that such a statement or a commit has failed.

## Model

| member | source | states |
|---|---|---|
| MinuteSeries.LastListedWins | web/src/history/useHistory.ts:90-101 | the entry that stands for a minute is the last listed one of it, and there is one exactly if some listed point is of that minute |
| MinuteSeries.SeriesTellsRecords | web/src/history/useHistory.ts:90-116 | minute i of the full series is at (from + 60 i) * 1,000 ms and has the finite value the selector finds in the last listed record of that minute, or none |
| MinuteSeries.BuildMinuteSeries | web/src/history/useHistory.ts:80-118 | the loop over a map of minutes yields one point per minute of the range, in order, with the last listed record's value; an invalid range yields nothing |
| MinuteSeries.GetAlignedHistoryIndex | web/src/history/chartSeries.ts:64-105 | the array alignment exists exactly for valid ranges with a list of points and holds in every slot the last listed record of that slot's minute |
| MinuteSeries.AlignableExactly | web/src/history/useHistory.ts:50-78 | a history can be charted exactly if it has a list of points and a range of whole minutes, in order, at most 2,592,000 seconds apart, whose milliseconds are exact numbers |
| MinuteSeries.OneSlotPerMinute | web/src/history/chartSeries.ts:93-94 | a record lands in the slot of its minute and in no other |
| Downsampling.BucketSize | web/src/history/chartSeries.ts:204-211 | over budget the buckets have the least size at which they cover every minute, and there are as many of them as the budget has room for, four points each beside the two ends |
| Downsampling.KeptIndices | web/src/history/chartSeries.ts:269-270 | the chosen minutes, each once and in ascending order, are exactly those the rules keep |
| DownsamplingLaws.AdjacentPointsAreUnbroken | web/src/history/chartSeries.ts:225-240 | between two neighbouring kept minutes that both have values, every minute has a value |
| DownsamplingLaws.IsolatedExactly | web/src/history/chartSeries.ts:225-239 | a kept value has no kept value beside it exactly if it is a run of a single minute |
| DownsamplingLaws.RunsWithinGaps | web/src/history/chartSeries.ts:165-173 | there is at most one run of values more than there are gaps |
| DownsamplingLaws.FourPerBucket | web/src/history/chartSeries.ts:149-163 | a bucket contributes at most four minutes: its first, last, smallest and largest |
| DownsamplingLaws.KeptCount | web/src/history/chartSeries.ts:165-211 | at most P+G+2R minutes are kept, hence at most P+3G+2, for every budget, length and gap pattern |
| DownsamplingLaws.EveryValueIsBracketed | web/src/history/chartSeries.ts:251-258 | every value lies between two kept values of its own bucket |
| DownsamplingLaws.KeepsEverythingExactly | web/src/history/chartSeries.ts:196-202 | nothing is dropped exactly if the range fits the budget or no inner minute is redundant |
| DownsamplingLaws.GapFreeKeepsEverythingExactly | web/src/history/chartSeries.ts:196-211 | without gaps nothing is dropped exactly if the range fits the budget |
| DownsamplingLaws.OverBudgetYetComplete | web/src/history/chartSeries.ts:225-238 | a series longer than the budget that is nevertheless kept whole |
| ChartSeries.ChartPointBudget | web/src/history/chartSeries.ts:56-62 | the budget lies between 160 and 1,600, is the default's for widths that are not positive and finite, and otherwise two points a pixel, rounded, within these limits |
| ChartSeries.SeriesScan.AddMinute | web/src/history/chartSeries.ts:222-258 | one minute of the loop keeps gap flag, last value, statistics, bucket summary and candidates those of the minutes seen so far |
| ChartSeries.SeriesScan.AddBucketCandidates | web/src/history/chartSeries.ts:149-163 | the end of a bucket adds its four extremes to the candidates and nothing else |
| ChartSeries.PrepareChartSeries | web/src/history/chartSeries.ts:174-294 | the single pass over buckets, minutes and series yields for each series the kept points of its full series and the full series' last value, mean and maximum; invalid histories yield no series (EmittedExactly says in numbers which points these are) |
| ChartSeries.AlignmentAgrees | web/src/history/chartSeries.ts:69-96 | the array alignment and the map-based series give every minute the same value |
| ChartLaws.FullSeriesIsMinuteGrid | web/src/history/useHistory.ts:104-116 | the full series is not empty and its times ascend |
| ChartLaws.ReductionIsOrderedSubsequence | web/src/history/chartSeries.ts:269-274 | emitted points are a subsequence of the full series with strictly ascending times that begins and ends where it does |
| ChartLaws.DrawnLinesAreUnbroken | web/src/history/chartSeries.ts:213-274 | no line between neighbouring emitted values passes over a missing minute |
| ChartLaws.BoundariesAreEmitted | web/src/history/chartSeries.ts:225-238 | the first minute of every gap and the first and last minute of every run are emitted |
| ChartLaws.IsolatedSymbolExactly | web/src/components/MetricChart.tsx:62-74 | a point gets the isolated symbol exactly if its run in the full series is a single minute |
| ChartLaws.BucketsInNumbers | web/src/history/chartSeries.ts:204-211 | over a budget of P points a range has (P - 2) / 4 buckets of n divided by that number of minutes, rounded up |
| ChartLaws.EmittedExactly | web/src/history/chartSeries.ts:204-270 | a minute is emitted exactly if the range fits the budget, or it is an end of the range, begins a gap, begins or ends a run, or is the first, last, earliest smallest or earliest largest value of its bucket, with bucket count and size as numbers |
| ChartLaws.EveryMinuteIsNear | web/src/history/chartSeries.ts:204-266 | over a budget of P points every value lies between two emitted values less than ceil(n / ((P - 2) / 4)) minutes away |
| ChartLaws.PointCountBound | web/src/history/chartSeries.ts:165-173 | at most P+G+2R, and so at most P+3G+2, points are emitted; over budget at most 4 * ((P - 2) / 4) + 2 + G + 2R |
| ChartLaws.FullSeriesExactly | web/src/history/chartSeries.ts:196-211 | the emitted points are the full series exactly if it fits the budget or has no redundant minute |
| ChartLaws.GapFreeFullSeriesExactly | web/src/history/chartSeries.ts:196-211 | for series without gaps, exactly if it fits the budget |
| ChartLaws.EveryMinuteIsBracketed | web/src/history/chartSeries.ts:243-266 | every value, emitted or not, lies between two emitted values of its bucket |
| ChartLaws.LargestMinute | web/src/history/chartSeries.ts:245-248 | the maximum is attained in the full series and nowhere exceeded |
| ChartLaws.MaximumIsDrawn | web/src/history/chartSeries.ts:255-265 | some emitted point shows the maximum |
| ChartLaws.StatisticsAgree | web/src/history/chartSeries.ts:275-284 | the three statistics exist together, the mean does not exceed the maximum, and the current value is the last one of the full series |
| ChartLaws.MeanIsWithin | web/src/history/chartSeries.ts:275-284 | whatever bounds all values of the full series bounds the mean of the legend |
| Accumulation.Accumulator.Add | internal/history/accumulator.go:68-108 | adding a report changes the accumulator as AddReport says, whatever order its disks are walked in |
| Accumulation.Accumulator.AddReportedDisks | internal/history/accumulator.go:79-96 | the loops over the reported disks, through a map walked in any order, amount to AddDisks |
| Accumulation.Accumulator.SortedMountpoints | internal/history/accumulator.go:111-115 | the mount points are listed once each in strictly ascending order |
| Accumulation.Accumulator.Finish | internal/history/accumulator.go:110-147 | the record is the payload of the accumulated state, with its disks in strict order |
| AccumulationLaws.GaugesAreMeansAndMaxima | internal/history/accumulator.go:16-32 | every gauge and rate of a minute is the mean and the maximum of one sample per report |
| AccumulationLaws.TotalsAreLatest | internal/history/accumulator.go:102-144 | the traffic totals of the finished payload are those of the report with the greatest receipt time, the later arrival among equals |
| AccumulationLaws.UnorderedTotalsYield | internal/history/accumulator.go:102-107 | a report without a receipt time brings its totals, and whatever report follows replaces them |
| AccumulationLaws.UsageIsPercentage | internal/history/accumulator.go:149-154 | usage is the exact percentage of the total, and zero without a total |
| AccumulationLaws.LastDuplicateWins | internal/history/accumulator.go:79-82 | a mount point listed twice in a report counts with its last entry |
| AccumulationLaws.DisksAreListedOnce | internal/history/accumulator.go:111-126 | a minute lists exactly the mount points some report listed, each once and in strict order |
| AccumulationLaws.DisksAreMeansAndLatest | internal/history/accumulator.go:83-96 | a disk's usage is the mean and maximum over the reports that list it, its byte counts are those of the latest of them |
| AccumulationLaws.ReportsCommute | internal/history/accumulator.go:68-108 | two reports with different receipt times may be added in either order |
| AccumulationLaws.OrderDoesNotMatter | internal/history/accumulator.go:60-147 | with distinct receipt times the finished minute does not depend on the order of arrival |
| StringOrder.SortingLists | internal/history/accumulator.go:115 | sorting a list of distinct strings gives the one strictly ascending listing of them |
| StringOrder.LtExactly | internal/history/accumulator.go:115 | the order of mount points is the lexicographic one: at the first difference the smaller character, or the end, comes first |
| Aggregation.Aggregator.Accept | internal/history/aggregator.go:41-57 | a report joins the bucket of its server and minute, which is made if there is none, and raises its revision by one |
| Aggregation.Aggregator.RemoveServer | internal/history/aggregator.go:59-67 | exactly the buckets of the server go |
| Aggregation.Aggregator.DueKeys | internal/history/aggregator.go:91-102 | exactly the keys whose minute, in seconds times 1,000,000,000, is before the limit, each once, by server and minute |
| Aggregation.Aggregator.Snapshot | internal/history/aggregator.go:104-113 | one candidate per due bucket, in order, with the bucket's identity, revision and record as they are now |
| Aggregation.Aggregator.Settle | internal/history/aggregator.go:120-127 | a bucket goes only if it is the one that was written, the write succeeded and nothing joined it since; an error counts only while it is current |
| Aggregation.Aggregator.FlushBefore | internal/history/aggregator.go:69-134 | among any doings of others, memory changes by exactly one settlement per candidate of a snapshot, in order, each with the outcome of its own write; every candidate's minute * 1,000,000,000 is before the limit; the error is that of the first candidate whose write failed while its bucket was current |
| FlushLaws.ReportFallsIntoMinute | internal/history/aggregator.go:41-45 | a report counts for the key of its server whose minute is a multiple of sixty seconds and holds the time of its receipt |
| FlushLaws.CandidatesExactly | internal/history/aggregator.go:91-113 | a key has a candidate exactly if it has a bucket and minuteUnix * 1,000,000,000 is before the limit |
| FlushLaws.CandidatesInOrder | internal/history/aggregator.go:96-113 | candidates come by server, then by minute, each with identity, revision and payload of its bucket |
| FlushLaws.RemovesWritten | internal/history/aggregator.go:69-134 | undisturbed, a flush removes exactly the buckets whose writes succeeded and leaves the contents of all alone |
| FlushLaws.ReportsFirstFailure | internal/history/aggregator.go:116-133 | undisturbed, a flush reports the first candidate that was not written, and no error exactly if all were |
| FlushLaws.CompletedMinutesAreStored | internal/history/aggregator.go:69-134 | undisturbed and without failures, a flush leaves exactly the keys with minuteUnix * 1,000,000,000 at or after the limit in memory, stores the record of every other, and leaves all other rows alone |
| FlushLaws.RunningMinutesStay | internal/history/aggregator.go:91-127 | whatever others do but remove the server, a flush never takes a bucket of a minute at or after its limit out of memory |
| FlushProtocol.StepKeepsInv | internal/history/aggregator.go:41-134 | every step of reports, removals and the flush that holds the gate keeps the books in order |
| FlushProtocol.NothingIsLost | internal/history/aggregator.go:41-67 | in every reachable state each accepted report's bucket is in memory, was removed with its server, or was flushed; the newest bucket of a key was then stored whole |
| FlushProtocol.FlushRemovesOnlyWhatItStored | internal/history/aggregator.go:121-126 | a bucket leaves memory by a flush only after a successful write of every report it accepted, never because revision numbers coincide |
| FlushProtocol.WritesMoveForward | internal/history/aggregator.go:73-118 | each write of a key stores a longer prefix of a bucket or a newer bucket than what is stored |
| FlushProtocol.StoredCoversEverythingExactly | internal/history/aggregator.go:50-56 | once a key has left memory by a flush, its stored version covers all its reports since the last removal exactly if they went into one bucket |
| FlushProtocol.LateReportReplaces | internal/history/aggregator.go:50-54 | a run in which a report after the flush of its minute replaces what was stored |
| AggregationLaws.EventMatches | internal/history/aggregator.go:41-134 | each event of the concrete system, with accumulators, revisions and rows, is a step of the books or drops a stored row, and keeps the two in agreement |
| AggregationRuns.RunsHaveBooks | internal/history/aggregator.go:41-134 | every run of the concrete system, of events each possible when it happens, has reachable books that describe it |
| AggregationRuns.AccountsAgree | internal/history/aggregator.go:41-67 | the books' entry for a key is what the events say: its reports since the last removal, the number of buckets made for them, and those in the newest |
| AggregationRuns.StoredRowIsComplete | internal/history/aggregator.go:116-127 | in every run, the row of a key that was flushed away and not dropped is the record of every report of its newest bucket, and of every report since the last removal if that bucket was the only one |
| AggregationRuns.LiveBucketIsComplete | internal/history/aggregator.go:41-57 | in every run, a bucket in memory has accumulated exactly the reports since it was made, and its revision is their number |
| AggregationRuns.FlushIsRun | internal/history/aggregator.go:69-134 | whatever FlushBefore does among the doings of others is a part of a run, with the memory it ensures and the rows of the writes that succeeded |
| HistoryStore.MinutesExactly | internal/history/store.go:115-139 | the minutes of a range are the stored ones, each once, ascending |
| HistoryStore.RejectsExactly | internal/history/store.go:70-72 | the range check, without 64-bit overflow, rejects exactly reversed ranges and those over thirty days |
| HistoryStore.Query | internal/history/store.go:69-108 | paging stops, rejects exactly the invalid ranges, and otherwise succeeds unless something fails; its rows ascend strictly and were stored even if the table changes between pages, and are the one-shot query's first 43,201 if it does not |
| HistoryStore.OneShotExactly | internal/history/store.go:69-139 | those rows are decoded, of the server, within the range and ascending, and miss no stored minute of the range unless there are 43,201, and then none up to the last returned |
| HistoryStore.AlignedIsNeverCapped | internal/history/store.go:13-17 | for rows at whole minutes a valid range never reaches the cap |
| HistoryStore.Store.UpsertMinute | internal/history/store.go:53-67 | a minute is stored in the place of an earlier one, or nothing changes |
| HistoryStore.Store.DeleteBefore | internal/history/store.go:158-168 | exactly the rows before the cutoff go, and they are counted unless counting fails |
| HistoryStore.StoredIsReturned | internal/history/store.go:53-108 | what was upserted is what a query of its minute returns, and other minutes are as before |
| HistoryStore.ExpiryTrims | internal/history/store.go:158-168 | after expiry a range holds what it held from the cutoff on |
| Clock.SaturationIsHarmless | internal/alerting/state_machine.go:54-71 | saturating subtraction of instants decides every wait as exact subtraction would |
| Clock.SecondsExactly | internal/alerting/evaluator.go:171-176 | a number of seconds survives 64-bit conversion exactly up to 9,223,372,036 |
| AlertStateMachine.StatesAreDeclared | internal/alerting/state_machine.go:19-99 | after every evaluation of any run from normal, whatever the reminders, the state is the one read off the evaluations: pending since a breach began, firing since it had lasted, recovered right after, else normal |
| AlertStateMachine.NotificationsExactly | internal/alerting/state_machine.go:19-99 | without reminders there is one notification at the first evaluation at which a breach has lasted for the duration, one at the first evaluation after it, and no other |
| AlertStateMachine.EpisodesAreNotified | internal/alerting/state_machine.go:28-71 | with reminders too, firing and recovery are notified, and nothing outside a firing breach is |
| AlertStateMachine.RemindersExactly | internal/alerting/state_machine.go:71-75 | the next notification of a breach comes at the first evaluation at least the repeat interval after the last one, and never without an interval |
| AlertStateMachine.RemindersAreSpaced | internal/alerting/state_machine.go:71-74 | any two notifications of one breach are at least the repeat interval apart |
| AlertMetrics.MetricValue | internal/alerting/metrics.go:9-45 | the loops over disks compute the value of the metric |
| AlertMetrics.LargestUsageIsLargest | internal/alerting/metrics.go:23-31 | disk usage is that of the fullest disk with a size, and zero if none has one |
| AlertMetrics.FreeBytes | internal/alerting/metrics.go:35 | unsigned subtraction gives the free bytes exactly if the disk is not over-full |
| AlertMetrics.SmallestFreeIsSmallest | internal/alerting/metrics.go:32-41 | free space is that of the disk with the least, and infinite exactly without disks |
| AlertMetrics.OfflineRuleExactly | internal/alerting/metrics.go:11-15 | an offline rule is breached exactly by snapshots of servers that are offline |
| AlertMetrics.ValuesAreReadings | internal/alerting/metrics.go:9-45 | every metric reads, in the snapshot's own numbers, what it stands for: percentages used * 100 of total, the fullest disk, the least free bytes with wrap-around, one for offline |
| AlertMetrics.BreachedExactly | internal/alerting/metrics.go:47-56 | a value breaches a rule exactly if it is greater, or less, than the threshold as the operator says |
| AlertMetrics.DurationExactly | internal/alerting/evaluator.go:171-176 | offline rules wait for nothing, the others for durationSeconds * 1,000,000,000 up to 9,223,372,036 seconds |
| AlertLog.Repository.ListEnabledRulesForServer | internal/alerting/repository.go:88-109 | the enabled rules of the server, by identifier |
| AlertLog.Repository.GetState | internal/alerting/repository.go:157-168 | the stored state, or which error |
| AlertLog.Repository.SaveStateAndEvent | internal/alerting/repository.go:170-214 | wherever the transaction fails, state and event are stored together or not at all; the event gets the next identifier |
| AlertLog.SucceedsExactly | internal/alerting/repository.go:170-214 | a save with acceptable values fails exactly if a row it refers to is missing or a statement it needs fails |
| AlertLog.OutcomeAgrees | internal/alerting/evaluator.go:94-103 | one evaluation keeps a rule's state in agreement with its log |
| AlertLog.EpisodeSharesStart | internal/alerting/evaluator.go:178-184 | all events of one episode carry one start time |
| AlertLog.CalmMeansRecovered | internal/alerting/evaluator.go:178-189 | a state that is normal or pending has a log that is empty or ends in a recovery |
| AlertEvaluator.Evaluator.EvaluateNow | internal/alerting/evaluator.go:73-112 | the rules of the event's server are evaluated in turn, one that fails is passed over, and exactly the events stored are handed on for delivery; EvaluationInFields says in the rule's own fields what each evaluation compares and stores, and TimingExactly for how long it waits |
| AlertEvaluator.Evaluator.Evaluate | internal/alerting/evaluator.go:83-110 | one rule: read, evaluated, saved with its event, offline events skipping all but offline rules |
| AlertEvaluator.Evaluator.Submit | internal/alerting/evaluator.go:54-60 | an event is queued behind the earlier ones, or leaves its server pending if the queue is full |
| AlertEvaluator.Evaluator.Retry | internal/alerting/evaluator.go:125-141 | a pending server's latest snapshot is queued if there is room, else it stays pending |
| AlertEvaluator.Evaluator.TakeOne | internal/alerting/evaluator.go:62-71 | until the queue overflows, events are taken in the order of their submission |
| AlertProtocol.StepKeeps | internal/alerting/repository.go:24-214 | every step of the evaluator, and every creation, edit and cascading deletion beside it, keeps states and logs in agreement |
| AlertProtocol.StatesAgreeWithLogs | internal/alerting/repository.go:170-214 | in every run with failing saves and deletions between read and save: a rule is firing exactly if its last event is, recovered only if its last event is, and event identifiers ascend |
| AlertProtocol.EvaluationIsTwoSteps | internal/alerting/evaluator.go:87-107 | what the evaluator does with a rule undisturbed is a read and a save of the protocol |
| AlertProtocol.RuleIsDeleted | internal/alerting/repository.go:139-155 | with a rule go its state and its events, and nothing else |
| AlertProtocol.ServerIsDeleted | internal/servers/service.go:164-177 | with a server go, by cascade, its rules, their states and events and its own events, and nothing else |
| AlertProtocol.RuleIsCreated | internal/alerting/repository.go:24-40 | a rule of a registered server is stored under the next identifier, any other is refused |
| AlertProtocol.ReferencesHold | internal/alerting/repository.go:24-214 | in every run rules refer to servers, states to rules and events to both, and all of these exist |
| ServerRegistry.Registry.Create | internal/servers/service.go:68-102 | a server gets the next identifier, its trimmed name, is enabled and unreported; at most ten servers, no blank name, no token twice, and a refusal changes nothing |
| ServerRegistry.Registry.ApplyUpdate | internal/servers/service.go:140-156 | name and enabled flag change as asked, and nothing else of the row but the time |
| ServerRegistry.Registry.ApplyDelete | internal/servers/service.go:164-177 | the row goes, or which error |
| ServerRegistry.Registry.RotateToken | internal/servers/service.go:196-217 | the row gets the new token exactly if no other has it, or which error; every other row stays |
| ServerRegistry.Registry.AuthenticateToken | internal/servers/service.go:219-232 | succeeds exactly if some enabled server has the token, and returns that server; disabled exactly if a disabled one has it, invalid exactly if none has |
| ServerRegistry.Registry.UpdateAgentVersion | internal/servers/service.go:234-247 | the version changes, whether or not that is reported, or there is no such server |
| ServerRegistry.CreatedIsValid | internal/servers/service.go:82-94 | creation keeps identifiers and tokens unique and the limit of ten |
| ServerRegistry.RotateIsValid | internal/servers/service.go:206 | rotation keeps tokens unique |
| ServerRegistry.TrimmedExactly | internal/servers/service.go:68-72 | trimming takes white space, and only white space, from both ends |
| LiveStore.Store.UpsertFrom | internal/live/store.go:33-46 | the server's snapshot is the report's, online |
| LiveStore.Store.MarkOffline | internal/live/store.go:62-74 | walking the snapshots in any order: afterwards a server is online exactly if it was and lastReceivedAt is at or after the cutoff, and each one taken offline is reported once |
| LiveStore.Store.Rename | internal/live/store.go:76-85 | a snapshot, if there is one, gets the name |
| LiveStore.Store.Delete | internal/live/store.go:87-91 | the snapshot goes and no other |
| LiveStore.ChangedExactly | internal/live/store.go:62-74 | what a sweep reports are exactly the online snapshots with lastReceivedAt before the cutoff, now offline |
| LiveStore.SweptExactly | internal/live/store.go:66-70 | a sweep leaves a server online exactly if it was and lastReceivedAt is at or after the cutoff, and changes nothing else |
| Coordination.Coordinator.Accept | internal/live/coordinator.go:77-96 | a report is taken in by registry, store, stream and history together; a refused one reaches none of store, stream and history, and of the registry at most the version column, if the recording took effect and yet failed |
| Coordination.Coordinator.Sweep | internal/live/coordinator.go:98-106 | afterwards a server is online exactly if it was and lastReceivedAt is at or after the cutoff; the events published are one offline event for each online snapshot with lastReceivedAt before it, and no others |
| Coordination.Coordinator.ReconcileUpdate | internal/live/coordinator.go:115-124 | a change of name reaches registry and snapshot together |
| Coordination.Coordinator.ReconcileDelete | internal/live/coordinator.go:126-137 | row, snapshot and buckets go together |
| LiveProtocol.SweepKeepsStream | internal/live/store.go:62-74 | a sweep ends the stream of a server it takes offline with one offline event and adds nothing to any other |
| LiveLaws.StreamGrows | internal/live/coordinator.go:77-106 | in every step of a run a server's stream grows by its report, field by field, by one offline event at a sweep that finds it online and received before the cutoff, and by nothing else |
| LiveLaws.SnapshotIsTold | internal/live/coordinator.go:77-106 | a server's live snapshot is what was told of it last, but for a change of name |
| LiveLaws.SweepSparesHeard | internal/live/store.go:62-74 | a sweep tells nothing of a server last heard from at or after its cutoff and leaves its snapshot alone |
| LiveLaws.SweepDecidesExactly | internal/live/coordinator.go:98-106 | after a sweep a server is online exactly if the last it told was a report received at or after the cutoff |
| LiveLaws.OfflineWasDue | internal/live/coordinator.go:98-106 | in every run each offline event follows a report received before the cutoff of some sweep of the run, and repeats it |
| LiveProtocol.StepExactly | internal/live/coordinator.go:77-137 | a step keeps registry, snapshots, buckets and streams together exactly if it is not a mutation that takes effect while reporting an error and does harm |
| LiveProtocol.FailedDeleteExactly | internal/live/coordinator.go:129-131 | a deletion that takes effect but reports an error does no harm exactly if nothing in memory is of the server |
| LiveProtocol.FailedUpdateExactly | internal/live/coordinator.go:118-121 | an update that takes effect but reports an error does no harm exactly if the server has no snapshot or keeps its name |
| LiveProtocol.FailedDeleteStrands | internal/live/coordinator.go:126-137 | a run of three steps after which such a deletion leaves the snapshot of a server that is gone |
| LiveProtocol.FailedRenameStrands | internal/live/coordinator.go:115-124 | a run of three steps after which such a renaming leaves a snapshot with the old name |
| LiveProtocol.MemoryFollowsRegistry | internal/live/coordinator.go:77-137 | in every reachable state live snapshots and buckets belong to registered servers, snapshots carry current names, and no server's stream has two offline events in a row |
| LiveProtocol.DeletedStaysGone | internal/live/coordinator.go:126-137 | whatever follows a deletion, the server has no row, snapshot or bucket again and no further event |
| LiveProtocol.TokenDiesWithServer | internal/servers/service.go:219-227 | a report whose token was good when it was sent is refused once its server is deleted |
| RuleLogs.LogIsNotifications | internal/alerting/evaluator.go:73-112 | after any events without failures a rule has logged exactly what the state machine notifies in the run of its own evaluations, whatever other rules and servers come in between |
| RuleLogs.NoticesAreDeclared | internal/alerting/state_machine.go:19-99 | without reminders the statuses notified in a run are those read off the evaluations, in order |
| RuleLogs.LogIsDeclared | internal/alerting/evaluator.go:73-112 | the log of a rule without reminders has one firing event for the first evaluation at which each breach had lasted, one recovered event for the first evaluation after it, and nothing else (in the rule's own fields: LogIsDeclaredInFields) |
| RuleLogs.TimingExactly | internal/alerting/evaluator.go:94-97 | a rule waits durationSeconds * 1,000,000,000, or not at all if it is an offline rule, and reminds after repeatSeconds * 1,000,000,000 |
| RuleLogs.ChecksAreReadings | internal/alerting/evaluator.go:83-97 | the checks of a rule are, for each event of its server in order, the reading of its metric compared with its threshold; offline events count for offline rules alone |
| RuleLogs.LogIsDeclaredInFields | internal/alerting/evaluator.go:73-112 | with up to 9,223,372,036 seconds of duration and no reminders, the log is what those checks declare for durationSeconds * 1,000,000,000, and for zero if it is an offline rule |
| RuleLogs.EvaluationInFields | internal/alerting/evaluator.go:83-110 | one evaluation stores state and, if it notifies, one event, with rule, server, status, value, threshold, start, end and creation time given field by field |
| RuleLogs.ListedAreRules | internal/alerting/repository.go:88-109 | the rules listed for a server are enabled rules of it, each once, by identifier |
| RuleLogs.EnabledAreListed | internal/alerting/repository.go:88-109 | every enabled rule of a server is listed |
| OfflineAlerts.OfflineNotices | internal/alerting/metrics.go:9-15 | for an offline rule the state machine notifies firing for every offline event and recovered for the next update, whatever the reminders |
| OfflineAlerts.OfflineEpisodesExactly | internal/alerting/evaluator.go:54-112 | let an offline rule be there before the first report of its server, and reports, sweeps, updates, deletions and evaluations follow in any order: while the server is registered and the queue has not overflowed, the rule has logged one firing event per event taken that took its server offline and one recovered event per return, in order, and nothing else, whatever its reminders; once the server is deleted, rule and log are gone for good |
| OfflineAlerts.TakenIsPrefix | internal/alerting/evaluator.go:52-71 | until the queue overflows, the events taken are a beginning of the events published |
| OfflineAlerts.ReadyExists | internal/alerting/handler.go:273-277 | a beginning as that theorem supposes it: one registered server with an offline rule |
| OfflineAlerts.ExpectedCounts | internal/live/coordinator.go:98-106 | there are as many firing events as offline events, and as many recovered ones but for a server still offline |
| Hub.Hub.Publish | internal/live/hub.go:22-43 | with consumers receiving between the selects, every subscriber takes the event in: it is buffered or received and never dropped, at most one other event is dropped for it, and only if the buffer was full; after closing nobody gets anything |
| Hub.Hub.Deliver | internal/live/hub.go:30-41 | the last select always finds room: the event ends up last in the buffer, whatever the consumer does meanwhile |
| Hub.EventIsNotLost | internal/live/hub.go:28-42 | an event taken in is the last of the subscriber's buffer or is among what its consumer received |
| Hub.DroppedIsOlder | internal/live/hub.go:32-40 | what is dropped for an event was published before it, and only a full buffer makes room that way |
| Hub.Hub.Subscribe | internal/live/hub.go:50-60 | a new empty channel, open and subscribed, or closed from the start once the hub is |
| Hub.Hub.Cancel | internal/live/hub.go:61-70 | cancelling closes a subscribed channel, and again does nothing |
| Hub.Hub.Close | internal/live/hub.go:73-84 | every channel is closed, each once, and keeps what it buffered |
| Hub.Hub.Receive | internal/live/hub.go:50-56 | a consumer gets the oldest buffered event |
| Hub.SendFits | internal/live/hub.go:29-31 | after a send the buffer is still the last events published, at most eight |
| Hub.ReceivedInOrder | internal/live/hub.go:22-43 | what a consumer received are published events, in order, none twice, and exactly those neither dropped nor buffered |
| Hub.InboxInOrder | internal/live/hub.go:22-43 | a consumer's inbox holds the received events at ascending positions of what was published; at most the last eight wait in the buffer |
| Hub.PublicationsInNumbers | internal/live/hub.go:22-43 | a publication adds its event and no other, takes back nothing received, and drops at most one event, out of eight |
| ServerSnapshots.ReconcileFetch | web/src/live/useServerSnapshots.ts:33-61 | the loops over fetched and current entries yield the sorted reconciliation |
| ServerSnapshots.SortKeepsEntries | web/src/live/useServerSnapshots.ts:9-16 | in the sorted list no online server comes before an offline one, equals come by name, and nobody's entry changes |
| ServerSnapshots.MergedEntries | web/src/live/useServerSnapshots.ts:18-31 | merging replaces or adds the one server's entry and keeps the others |
| ServerSnapshots.ReconciledEntries | web/src/live/useServerSnapshots.ts:39-59 | a reconciliation keeps an entry newer than the request, takes the fetched one otherwise, and drops whom the fetch does not have |
| SnapshotProtocol.Hook.Succeed | web/src/live/useServerSnapshots.ts:116-134 | a fetch counts only if it is the newest and the hook is mounted |
| SnapshotProtocol.Hook.Fail | web/src/live/useServerSnapshots.ts:135-149 | a failure never touches the list, nor a load that succeeded before |
| SnapshotProtocol.Hook.HandleSnapshot | web/src/live/useServerSnapshots.ts:159-169 | an event raises the revision, which becomes its server's |
| SnapshotProtocol.Hook.Render | web/src/live/useServerSnapshots.ts:125-132 | waiting changes are applied in order, with the revisions of the moment |
| SnapshotProtocol.ApplyEntries | web/src/live/useServerSnapshots.ts:18-61 | a change of the list is a change of each server's entry on its own |
| SnapshotProtocol.ShowsLatest | web/src/live/useServerSnapshots.ts:110-169 | whatever the interleaving of events, refreshes and out-of-order, failed or late completions, each server is shown by the last event received after the last applied fetch began, else by that fetch's entry, else not at all |
| SnapshotProtocol.AppliedExactly | web/src/live/useServerSnapshots.ts:116-134 | in every run a response is applied exactly if the hook is mounted and no refresh has begun since its own |
| SnapshotProtocol.BeginsWithEvents | web/src/live/useServerSnapshots.ts:110-114 | every refresh remembers the number of events received while mounted, and events are counted in the order of receipt |
| SnapshotProtocol.MountedExactly | web/src/live/useServerSnapshots.ts:154-157 | in every run the hook is mounted exactly if some mounting was not followed by an unmounting |
| SnapshotProtocol.LoadTellsApplied | web/src/live/useServerSnapshots.ts:124-147 | in every run the load has succeeded exactly if some response was applied, whatever failed since |
| SnapshotProtocol.StaysSorted | web/src/live/useServerSnapshots.ts:9-61 | at every moment the list has each server once, no online one before an offline one, and equals by name |
| ServerCollection.Collection.BeginLoad | web/src/servers/useServerCollection.ts:36-41 | a load takes the next generation and remembers the revision |
| ServerCollection.Collection.EndLoad | web/src/servers/useServerCollection.ts:42-57 | a result is dropped if a newer load began, and not installed if anything changed since |
| ServerCollection.Collection.BeginServerRequest | web/src/servers/useServerCollection.ts:64-76 | a request becomes its server's latest and marks it pending |
| ServerCollection.Collection.EndServerRequest | web/src/servers/useServerCollection.ts:92-139 | only the latest request of a server is applied or thrown; it stops pending if it is the one marked |
| ServerCollection.Collection.AddServer | web/src/servers/useServerCollection.ts:141-147 | the server is listed once, last |
| CollectionProtocol.StepKeeps | web/src/servers/useServerCollection.ts:36-147 | every step keeps generations, revisions and pending marks in agreement with what happened |
| CollectionProtocol.InstalledExactly | web/src/servers/useServerCollection.ts:43-49 | in every run a list is installed exactly if no newer load began and no request began or was applied and no server was added since it started |
| CollectionProtocol.AppliedExactly | web/src/servers/useServerCollection.ts:78-105 | a request is applied exactly if no later one for its server began |
| CollectionProtocol.PendingExactly | web/src/servers/useServerCollection.ts:64-90 | a server is pending exactly while its latest request is unfinished |
| CollectionProtocol.RemovedStaysAway | web/src/servers/useServerCollection.ts:116-139 | a list loaded before a removal never brings the server back, however late it arrives |
| CollectionLaws.ListFollowsActs | web/src/servers/useServerCollection.ts:36-147 | in every run the list and its load state are what the acts make of them: results of the last load with nothing changed since it began, applied changes and removals, and additions, in order |
| CollectionLaws.ChangeIsShown | web/src/servers/useServerCollection.ts:92-105 | once a change is applied the list shows the changed server wherever it showed the server, and keeps its length |
| CollectionLaws.RespondedExactly | web/src/servers/useServerCollection.ts:16-18 | a change replaces exactly the entries of its server in place, a removal keeps exactly the others, a failure keeps all |
| Lifecycle.Application.RunBackground | internal/app/app.go:131-148 | runners start, once, exactly if closing has not begun; the channel returned is never missing |
| Lifecycle.Application.BeginClose | internal/app/app.go:150-174 | the first caller closes, with the cancel function and channel of that moment; the others wait |
| Lifecycle.Application.CloseStreams | internal/app/app.go:193-202 | streams are closed by the first who comes |
| Lifecycle.Application.EndClose | internal/app/app.go:186-189 | the error is published before the waiting callers go on |
| Lifecycle.StepKeeps | internal/app/app.go:131-226 | every step of starting, returning runners and concurrent closers keeps the order of shutdown |
| Lifecycle.ShutdownIsOrderly | internal/app/app.go:131-226 | in every interleaving runners start at most once and never after closing began, streams close once and before the cancellation, the database closes once and after every started runner returned, and callers return after that |
| Lifecycle.CallersAgree | internal/app/app.go:155-190 | all callers of Close return the one error, the one the database was closed with |
| Lifecycle.CloserIsNotStuck | internal/app/app.go:176-191 | once the started runners have returned, the closing caller can always go on |
| LifecycleLaws.RunnersStartExactly | internal/app/app.go:131-148 | in every run the runners have been started exactly if RunBackground was called before any Close |
| LifecycleLaws.CloserExists | internal/app/app.go:155-191 | in every reachable state in which closing is under way some caller is at it |
| LifecycleLaws.EveryCallCanReturn | internal/app/app.go:150-191 | in every reachable state in which the started runners are done, the callers of Close can go on by themselves until any given one of them has returned |

## Left out

- Floating point: rounding and the arithmetic of NaN in averages, percentages and statistics; metric values are reals.
- Wrap-around of the 64-bit revision and sample counters after 2^64 events: they are unbounded here.
- Aggregator buckets are reached through explicit references in a map of every bucket ever allocated instead of heap objects; identity is kept, sharing of a bucket by two keys is excluded by the invariant.
- Cloning of reports and events: values cannot be shared, so aliasing of disk lists between store, hub and handlers is not expressed.
- HTTP handlers, routing, cookies, JSON decoding, event-stream writing, webhook delivery and templates: input and output around the modelled state.
- Whether a webhook is configured and whether its delivery queue is full: the events handed on for delivery are modelled, their delivery is not.
- SQL text, drivers and migrations: tables are maps and sequences, statements and transactions are atomic, references to missing rows are rejected.
- Token digests and token generation: a token stands for its digest and comes from outside.
- Moving an alert rule to another server: deleting the old server then removes the events but not the state, so edits keep the server of a rule here.
- Timers of the retry queue: when a pending server is looked up again is up to the caller of Retry, and no claim is made that the newest event is always evaluated.
- RuleLogs.LogIsDeclared: speaks of evaluations whose reads and saves succeed and of rules that are not edited meanwhile; what failures leave true is StatesAgreeWithLogs.
- OfflineAlerts.OfflineEpisodesExactly: says nothing of the log after an overflow, which may reorder what is evaluated; saves succeed, no rule is created or edited meanwhile, and a deletion falls between the evaluations of two events, not into one.
- SnapshotProtocol.ShowsLatest: speaks of the list once React has applied the waiting changes; in between the list is the one before them.
- SnapshotProtocol.StaysSorted: supposes that no response lists a server twice, because the hook does not remove duplicates of a response.
- The hook's error texts and connection state, focus, forms, rendering, chart options and the one-minute response cache: no effect on the modelled lists.
- The cache of aligned histories keyed by object identity: it returns what would be computed again.
- Close on an application that does not exist, which returns no error at once: there is no such object to model.
- The optional wiring of the coordinator without history or without observers: the application always has both.
- Host measurement, rate sampling, agent back-off, sessions, passwords and route parsing: thin wrappers or short single loops.
