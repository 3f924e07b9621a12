# Verification of the vSphere problem detector

A Dafny model of the logic of the vSphere problem detector operator, with proofs of what its
concurrency, its schedule, its cache and its checks guarantee. `dafny verify dfyconfig.toml` checks
everything.

The modules follow the program:

- **The thread pool and the round** (`ThreadPool`, `PoolTheorems`, `PoolSchedules`, `Round`,
  `RoundTheorems`, `RoundProtocol`, `RoundOverlap`, `RoundShapes`, `ResultCollection`). The pool is a
  step relation over the main goroutine, the workers, the goroutine that `Wait` starts and the expiry
  of the context. One inductive invariant
  holds in every interleaving; from it follow accounting, safety of the channel, deadlock freedom,
  termination and agreement with the sequential execution of the same statements. The loops of
  `vsphere_check.go` compute the script that the pool runs, so the results of a round and the order
  of `StartCheck`, `CheckNode` and `FinishCheck` are theorems about every schedule, every pool size
  and every pattern of failures.
- **Checks that remember** (`ClaimingChecks`, `ClaimSchedules`, `ClaimRuns`, `ClaimTheorems`,
  `LatencySchedules`). Two node checks look at a host or a compute cluster for the first node only, and
  the disk latency check asks every vCenter for the metric ids of the first, so that their verdict on a
  node depends on the calls before it. The modules say exactly when what they report or ask for depends
  on the schedule, by building the schedules that show it.
- **The schedule** (`Schedule`). The controller's fields are those of a class; the histories of
  rounds, syncs, timers and clock ticks are unbounded.
- **The state shared by the checks of a round** (`ClusterInfoModel`, `RoundCounts`,
  `MetricsCollector`, `RoundMetrics`). The metrics buffers are slices over arrays, sharing included.
- **The cache** (`Cache`, `CacheTheorems`, `DatastoreSearch`, `RepeatedSearches`). A heap of lazily filled datacenters,
  compared in any run, with any faults, with a client that asks the vCenter every time.
- **Configuration** (`Platform`, `InfraConfig`, `DatacenterConsistency`, `Resolve`). What a passing
  configuration check is worth to the conversion of the platform spec and to the choice of a
  node's vCenter.
- **Checks** (`Deprecation`, `Tags`, `HostGroups`, `NodePerf`) and the string functions they need
  (`Text`).

Remote calls, listers and clocks are parameters: an oracle gives a value or an error, and every
theorem holds for all oracles. Go maps are ranged over in an arbitrary order; a method that ranges
over one either hands out the order it chose, as a ghost result, or has a contract that does not
depend on it. A Go error that only its text distinguishes is represented by what the text names.

In `Round` the oracle `nodeError` is the verdict that a node check gives in that run. Theorems about one
run hold for every check. A theorem that compares two runs assumes that both have the same verdicts,
as they have for a check that does not heed earlier calls. Three node checks do. The verdicts of the
ESXi and the cluster permission check in a run are those of its own calls (`AsCalled`), and
`ClaimTheorems` compares such runs; for the disk latency check `AsAsked` and `LatencySchedules` do the
same. The resource pool check keeps a map of the pools it has seen but does not heed it
(`CheckNodeResourcePool`).

Some promises of the code's own comments do not hold, and the model shows where:

- `JoinErrors` announces the first five errors and quotes four (`NeverQuotesFive`).
- A submission after `Wait` is exactly what makes a send on the closed channel possible
  (`PanicsExactlyWhenSubmittingAfterWait`).
- When the nodes cannot be listed, `Wait` is not called and the workers stay parked on the channel; in
  a round at rest they have exited exactly when the nodes were listed
  (`WorkersExitExactlyWhenNodesListed`).
- The contract of `NodeCheck` says that one round runs at a time; a round whose context expires can
  return in the middle of a `CheckNode` call, exactly when a found node is checked and there is a second
  worker or room in the channel for the nodes behind it (`RoundLeavesCheckNodeExactlyWhen`).
- What the ESXi check and the permission check report depends on the schedule, exactly when among the
  first found nodes of a host or cluster, as many as there are workers, one would end otherwise than
  the first (`ResultsAreFixedExactlyWhenFirstAgree`).
- The map of metric ids belongs to the process, and the first vCenter that names a metric fills it:
  every vCenter is asked for its own id exactly when all that name metrics agree
  (`AllAskedForOwnIdExactlyWhenAgree`), and which id is in use depends on the schedule exactly when the
  process has none yet and the first nodes that could teach it one, as many as there are workers, do not
  agree (`IdIsFixedExactlyWhenTeachersAgree`).
- A claim of a round that has returned can reach the next round's map and hide a cluster from it, exactly
  when the older round could go on to `Wait` behind a found node of that cluster
  (`ClaimReachesNextExactlyWhen`, `LeftOverClaimHides`).
- The restart on a change of the driver's state is to keep a process to one silencing. It does exactly
  when the states it sees either never include Removed or include only Managed and Removed; with
  Unmanaged or Force in between, one process runs both silenced and unsilenced
  (`SilencingIsFixedExactlyWhen`).
- The resource pool check logs that a pool has been checked already and checks it again
  (`CheckNodeResourcePool`).
- The gate of a sync is strict, so the timer wakes the operator in vain exactly when the clock did
  not advance between taking `lastCheck` and arming the timer
  (`TimerPassesGateExactlyIfClockAdvanced`).
- A vCenter listed twice in the Infrastructure object hides one that is only in the cloud config: a
  passing spec lists the config's servers exactly when it lists none twice
  (`PassingSpecAgreesExactlyWhenDistinct`).
- The conversion of the legacy config keeps the white space that `parseDatacenters` removes
  (`SplitAgreesExactlyWhenClean`).
- The read-only decision can disagree with the failure domain that `GetVCenter` chose, exactly when
  labels are not unique in one particular way (`ReadOnlyDisagreesExactly`).
- The search for a datastore by URL goes on only after "not found". Listing an empty datacenter is an
  error of the library, so such a failure domain, an unreachable one or one with an unmatched datastore
  hides the datastores of the domains behind it (`FindsExactlyWhenDomainsAnswer`,
  `EmptyDatacenterEndsSearch`).
- Upgrade gating reads no version with a leading zero in its first three components, so "06.5.0" never
  blocks (`LeadingZeroNeverBlocks`).
- The latency sum wraps around for absurd samples; when the verdict still is the one of the true sum is
  in `AgreesWithTrueSumExactlyWhen`, and per-sample bounds that exclude wrapping are in
  `BoundedSamplesDoNotOverflow`.

## Model

| member | source | states |
|---|---|---|
| `ThreadPool.InvStep` | pkg/operator/pool.go:20-71 | every step of any goroutine keeps the invariant: shape, accounting of tasks and of the WaitGroup, when the channels are closed, progress of tasks, what each statement has logged, order of the log |
| `ThreadPool.BusyIsRunning` | pkg/operator/pool.go:34-44 | a task at a worker was submitted and received, is neither queued nor finished, and is still counted by the WaitGroup, so Done never makes the counter negative |
| `PoolTheorems.PoolAccounting` | pkg/operator/pool.go:20-51 | in every reachable state the counter is added + queued + running, each admitted task is in exactly one place, none starts twice, the queue fits the buffer and at most `parallelism` tasks run |
| `PoolTheorems.ChannelClosedOnlyWhenDone` | pkg/operator/pool.go:48-71 | no send meets the closed channel, and both channels are closed only when every task has finished, also after the context expired |
| `PoolTheorems.WaitNilMeansAllRan` | pkg/operator/pool.go:55-71 | when Wait has returned nil, every submitted task started once, finished once and produced all its events in order |
| `PoolTheorems.DeadlockFree` | pkg/operator/pool.go:20-63 | a reachable state without an enabled step is a final one, and conversely, even without the context ever expiring |
| `PoolTheorems.WorkersExitExactlyWhenWaited` | pkg/operator/pool.go:34-63 | in a state where nothing can move, the channel is closed and all workers have exited exactly when the caller used Wait; otherwise all are parked |
| `PoolTheorems.StepLowersMeasure` | pkg/operator/pool.go:20-71 | every step lowers a natural number |
| `PoolTheorems.RunsAreBounded` | pkg/operator/pool.go:20-71 | so every run is bounded by the measure of its first state |
| `PoolTheorems.CanFinish` | pkg/operator/pool.go:20-71 | from every invariant state a run without expiry leads to a final state |
| `PoolTheorems.CompletedRunIsPermutation` | pkg/operator/pool.go:48-71 | a run that passed Wait and returned has the events of the sequential execution, each task's in the same order |
| `PoolTheorems.UnwaitedRunIsPermutation` | pkg/operator/pool.go:34-51 | without Wait the same holds when nothing can move any more, and all workers are idle |
| `PoolTheorems.PanicsExactlyWhenSubmittingAfterWait` | pkg/operator/pool.go:48-63 | a send on the closed channel is reachable if and only if the caller submits after Wait |
| `PoolSchedules.ReachableFifo` | pkg/operator/pool.go:34-51 | in any run tasks are received in the order of their submission |
| `PoolSchedules.DelayedRun` | pkg/operator/pool.go:20-63 | with more workers than chosen tasks there is a run in which those come after all other statements before Wait |
| `PoolSchedules.ExpireWhileRunning` | pkg/operator/pool.go:53-63 | Wait can return on expiry with a given task at any given point, if there is a second worker or the channel takes the tasks behind it |
| `ResultCollection.ResultCollector.AddResult` | pkg/operator/pool.go:94-107 | the result is appended to those of its check |
| `ResultCollection.ResultCollector.Collect` | pkg/operator/pool.go:113-140 | for every order of the map: one summary per check, which counts each of its stored errors, and an overall error with every stored error of all checks as often as it was stored, nil when there is none |
| `ResultCollection.NoFailuresAtAll` | pkg/operator/pool.go:113-140 | there is no overall error exactly when every stored result of every check is nil |
| `ResultCollection.FailuresAre` | pkg/operator/pool.go:124-136 | a check's failures hold every error as often as it was stored |
| `ResultCollection.FailuresInOrder` | pkg/operator/pool.go:124-136 | and in the order in which they were stored |
| `ResultCollection.AllFailuresAre` | pkg/operator/pool.go:113-140 | the overall error holds every stored error of all checks as often as it was stored |
| `ResultCollection.SummarySpeaksOf` | pkg/operator/pool.go:128-133 | each summary counts every stored result of its check that is not nil, and quotes fewer than five of them completely |
| `ResultCollection.NeverQuotesFive` | pkg/check/errors.go:9-18 | five or more errors are quoted up to the fourth; fewer are quoted completely |
| `Round.EnqueueClusterChecks` | pkg/operator/vsphere_check.go:237-245 | submits one task per cluster check |
| `Round.EnqueueNodeChecks` | pkg/operator/vsphere_check.go:247-275 | calls StartCheck of every check, then submits one task per node with a vsphere:// provider ID, and counts the others |
| `Round.VSphereNodesAre` | pkg/operator/vsphere_check.go:258-284 | kept are exactly the nodes whose provider ID begins with "vsphere://", each as often as it is listed |
| `Round.VSphereNodesInOrder` | pkg/operator/vsphere_check.go:258-284 | and in the order of the list |
| `Round.RunChecks` | pkg/operator/vsphere_check.go:94-112 | the main goroutine's statements: cluster checks, StartCheck, node checks, Wait, FinishCheck, or the early return without Wait |
| `Round.ScriptLayout` | pkg/operator/vsphere_check.go:94-112 | which statement stands at which index of the script |
| `Round.RoundWaitsLast` | pkg/operator/vsphere_check.go:94-112 | a round submits nothing after Wait, as the pool demands |
| `RoundTheorems.BodyPicked` | pkg/operator/vsphere_check.go:286-347 | a node's task yields each enabled check once: its own outcome if the VM was found, the lookup's otherwise |
| `RoundTheorems.RoundPicks` | pkg/operator/vsphere_check.go:94-112 | whatever is selected from the events of a completed round is, in any interleaving, what each cluster check and each vSphere node yields once |
| `RoundTheorems.CollectedIsResultsIn` | pkg/operator/pool.go:94-107 | the collector's map holds the AddResult calls of the log, check by check and in order |
| `RoundTheorems.ResultsConserved` | pkg/operator/vsphere_check.go:237-347 | whatever the interleaving, a completed round has stored exactly the owed results of every check: its verdict of that run on each found node, the lookup's error on the others |
| `RoundTheorems.StoredResultsAre` | pkg/operator/vsphere_check.go:237-347 | so a cluster check has stored its one result, and a node check each result as often as listed nodes with the prefix "vsphere://" end with it: with the lookup's error if there is one, else with the check's own |
| `RoundTheorems.ScheduleDoesNotMatter` | pkg/operator/vsphere_check.go:237-347 | where each node check has the same verdicts in both rounds, results per check depend neither on the schedule nor on the pool's size nor on the order of the map of cluster checks; the checks for which it has not are compared in `ClaimTheorems` and `LatencySchedules` |
| `RoundTheorems.ResultCounts` | pkg/operator/vsphere_check.go:237-347 | one result per cluster check, one per node check and vSphere node, none else |
| `RoundTheorems.RoundFailsExactlyWhenSomeCheckFails` | pkg/operator/pool.go:113-140 | the collected error of a completed round is nil exactly when every cluster check passed, every VM was found and every node check passed on every found node in that run |
| `RoundProtocol.StartsComeFirst` | pkg/check/interface.go:91-111 | no StartCheck follows a CheckNode, in any run |
| `RoundProtocol.EveryCheckStarted` | pkg/operator/vsphere_check.go:247-275 | before any CheckNode, StartCheck of every check was called |
| `RoundProtocol.FinishesComeLast` | pkg/operator/vsphere_check.go:349-354 | FinishCheck is called only when nothing is queued or running and every task has run completely; only FinishChecks follow |
| `RoundProtocol.CompletedRoundLeavesNothing` | pkg/operator/vsphere_check.go:106-112 | a round that returns after Wait leaves no task and no CheckNode behind |
| `RoundProtocol.EarlyReturnParksWorkers` | pkg/operator/vsphere_check.go:96-100 | after the early return the channel is never closed, no worker exits, and finally all of them are parked |
| `RoundProtocol.WorkersExitExactlyWhenNodesListed` | pkg/operator/vsphere_check.go:94-108 | in a round at rest all workers have exited exactly when the nodes could be listed |
| `RoundProtocol.RoundLeavesCheckNodeExactlyWhen` | pkg/check/interface.go:91-111 | for every pool size and buffer: a run that returns during a CheckNode call exists exactly when some found node is checked and there are two workers or room for the tasks behind it; and then the context had expired |
| `RoundOverlap.LeftOverCallsExactlyWhen` | pkg/operator/pool.go:34-63 | a call for a node can begin after its round has returned exactly when the node is found and checked and the round can go on to Wait behind it |
| `RoundOverlap.ClaimReachesNextExactlyWhen` | pkg/check/node_cluster_permissions.go:22-45 | a call of an older round can claim a key of the next round's map exactly when that holds for a node with the key, whatever the next round does |
| `RoundOverlap.LeftOverClaimHides` | pkg/check/node_cluster_permissions.go:41-45 | and then every call of the next round with the key ends with nil |
| `RoundShapes.VerdictsDoNotSchedule` | pkg/operator/vsphere_check.go:286-347 | a completed round with other verdicts has the same runs with the same calls |
| `ClaimingChecks.Claims.CheckNodeESXi` | pkg/check/node_esxi_version.go:31-69 | fails without a host, passes on a host that is claimed already, otherwise claims it and ends as the load does |
| `ClaimingChecks.Claims.CheckNodePermissions` | pkg/check/node_cluster_permissions.go:28-110 | the same for clusters by name, without a claim when the vCenter or cluster is unknown or read-only |
| `ClaimingChecks.Claims.CheckNodeResourcePool` | pkg/check/node_resource_pool_permissions.go:29-83 | the pools checked are kept, but the verdict does not depend on them |
| `ClaimingChecks.RootPools` | pkg/check/node_resource_pool_permissions.go:29-83 | a pool is taken for a root pool exactly when its name ends in "Resources" |
| `ClaimingChecks.VerdictByClaimedKeys` | pkg/check/node_esxi_version.go:31-69 | what both methods answer after any calls is the verdict of the claiming scheme |
| `ClaimingChecks.StoredAsCalled` | pkg/operator/vsphere_check.go:286-347 | a completed round stores each result of such a check once per failed lookup and once per call that ends with it, in the order of this round's calls |
| `ClaimSchedules.ReachableClaimsAreEarly` | pkg/operator/pool.go:34-51 | in any run the first call with a key is for one of the first found nodes with it, as many as there are workers |
| `ClaimSchedules.ScheduleDoesNotMatterWhenFirstAgree` | pkg/check/node_esxi_version.go:31-69 | if those nodes would all end alike, any two rounds store the same results |
| `ClaimRuns.HeldRound` | pkg/operator/pool.go:34-51 | any of those nodes can be the first: a completed round in which it claims its key and every other key goes to its first node |
| `ClaimTheorems.ResultsAreFixedExactlyWhenFirstAgree` | pkg/check/node_esxi_version.go:31-69 | all rounds of the same nodes store the same results if and only if, for every key, the first found nodes with it, as many as there are workers, would end alike |
| `ClaimTheorems.ErrorsThatNameTheirNode` | pkg/check/node_esxi_version.go:48-61 | when every load fails with an error that names the node, exactly if there is one worker or no two found nodes share a host |
| `LatencySchedules.CheckNode` | pkg/check/node_perf.go:127-201 | the verdict on a node and the ids afterwards, as a function of the ids before the call |
| `LatencySchedules.AnswersFit` | pkg/check/node_perf.go:60-125 | the calls of any completed round are those of one in which the check answers as it was called |
| `LatencySchedules.IdIsFixedExactlyWhenTeachersAgree` | pkg/check/node_perf.go:46-125 | all rounds of the same nodes end with the same id if and only if the process had ids or the first found nodes whose vCenter names a metric, as many as there are workers, agree on it |
| `LatencySchedules.LatencyScheduleDoesNotMatter` | pkg/check/node_perf.go:127-201 | then, if the nodes that ask without teaching would pass with that id, any two rounds store the same results |
| `ClusterInfoModel.ClusterInfo.MarkHostForProcessing` | pkg/util/cluster_info.go:135-150 | whether the host was known, its version, and the new state |
| `ClusterInfoModel.ClusterInfo.SetHostVersion` | pkg/util/cluster_info.go:58-63 | the new state |
| `ClusterInfoModel.ClusterInfo.SetHardwareVersion` | pkg/util/cluster_info.go:65-70 | the new state |
| `ClusterInfoModel.ClusterInfo.SetVCenterVersion` | pkg/util/cluster_info.go:84-95 | the new state |
| `ClusterInfoModel.ClusterInfo.SetCbtData` | pkg/util/cluster_info.go:153-158 | the new state |
| `ClusterInfoModel.ClaimedOnce` | pkg/util/cluster_info.go:135-150 | in any history a host is claimed once if a Mark is the first call about it, and never otherwise |
| `ClusterInfoModel.MarkedHostClaimedOnce` | pkg/check/node_esxi_version.go:31-69 | when versions are recorded only for marked hosts, each marked host is claimed exactly once |
| `ClusterInfoModel.CheckNodeESXi` | pkg/check/node_esxi_version.go:31-69 | the operations of a call: a mark, and after it the version if the host was not claimed and the load succeeds |
| `ClusterInfoModel.CallsRecordOnlyMarked` | pkg/check/node_esxi_version.go:31-69 | however such calls interleave, a version is recorded only for a host that was marked before |
| `ClusterInfoModel.MarksNeverErase` | pkg/util/cluster_info.go:135-150 | the version held for a host is the last one recorded, whatever marks follow |
| `ClusterInfoModel.HoldsLastHostReport` | pkg/util/cluster_info.go:58-63 | both versions held for a host are those of the last report about it |
| `ClusterInfoModel.HoldsLastVCenterReport` | pkg/util/cluster_info.go:84-95 | the same for a vCenter |
| `ClusterInfoModel.VCentersListedOnce` | pkg/util/cluster_info.go:84-95 | each reported vCenter is listed once, and exactly those with a version |
| `ClusterInfoModel.TotalsCountReports` | pkg/util/cluster_info.go:65-70 | the hardware counts and the CBT counts add up to the number of reports |
| `ClusterInfoModel.EachCountIsReports` | pkg/util/cluster_info.go:153-158 | each count is the number of reports of its key |
| `ClusterInfoModel.Histogram` | pkg/check/node_esxi_version.go:71-84 | for every order of the map: each version with the number of its hosts, adding up to the number of hosts |
| `RoundCounts.EachFoundNodeVisitedOnce` | pkg/operator/vsphere_check.go:286-347 | in every completed round each enabled check is called exactly once per vSphere node whose VM was found |
| `RoundCounts.OnlyVSphereNodesAreChecked` | pkg/operator/vsphere_check.go:247-347 | a completed round looks up the VM of every listed node with the prefix "vsphere://" once per listing and of no other, calls each enabled check for those found, and stores one result of each check per lookup |
| `RoundCounts.CompletedRoundTotals` | pkg/check/node_hw_version.go:25-30 | after a completed round the hardware and CBT counts each add up to the number of found nodes, in any order of the calls |
| `RoundCounts.CompletedRoundHosts` | pkg/check/node_esxi_version.go:31-84 | the hosts known after a round are those of the found nodes, each claimed once |
| `RoundCounts.ReportHosts` | pkg/check/node_esxi_version.go:71-84 | the reported counts add up to the number of hosts of found nodes |
| `MetricsCollector.Collector.AddMetric` | pkg/metrics/collector.go:76-81 | an append, in place or into a larger array, adds to the pending metrics and leaves the published ones alone although they may share the array |
| `MetricsCollector.Collector.StartMetricCollection` | pkg/metrics/collector.go:83-88 | pending metrics are dropped, the published ones stay |
| `MetricsCollector.Collector.FinishedAllChecks` | pkg/metrics/collector.go:92-97 | the pending metrics are published, the array is shared from then on |
| `MetricsCollector.Collector.CollectWithStability` | pkg/metrics/collector.go:67-74 | sends the published metrics in order |
| `MetricsCollector.PublishedIsOneRound` | pkg/metrics/collector.go:76-97 | in any history the published metrics are those added between the last FinishedAllChecks and the StartMetricCollection before it |
| `MetricsCollector.RoundPublishesItsOwn` | pkg/metrics/collector.go:76-97 | after any history a round publishes exactly its own metrics, until the next FinishedAllChecks |
| `RoundMetrics.CompletedRoundFinishesAll` | pkg/operator/vsphere_check.go:349-354 | a completed round has called FinishCheck of every node check once, in order |
| `RoundMetrics.FailedRoundFinishesNone` | pkg/operator/vsphere_check.go:96-107 | a round without nodes or with an expired context has called none, however long its tasks go on |
| `RoundMetrics.RoundPublishes` | pkg/operator/vsphere_check.go:45-112 | after any history a round publishes the metrics of all its node checks if it completed, and none otherwise, until the next FinishedAllChecks |
| `RoundMetrics.MetricsOfEach` | pkg/operator/vsphere_check.go:349-354 | these are each check's metrics, all of them, between those of the checks before and behind it |
| `Schedule.Controller.Step` | vendor/k8s.io/apimachinery/pkg/util/wait/backoff.go:58-65 | the duration with jitter is returned, the stored one doubles until it is pinned at the cap |
| `Schedule.Controller.CheckStateChange` | pkg/operator/operator.go:199-210 | a restart exactly on a change between Managed and Removed |
| `Schedule.Controller.RunChecks` | pkg/operator/operator.go:322-354 | backoff and delay for failing, passing and silenced rounds |
| `Schedule.Controller.RunSyncChecks` | pkg/operator/operator.go:233-256 | nothing before the gate; after it the delay and backoff of the round, stepped again for a pass that blocks upgrades |
| `Schedule.Controller.Sync` | pkg/operator/operator.go:147-197 | outcome and whole new state of a sync, timer included |
| `Schedule.PerformsExactlyWhen` | pkg/operator/operator.go:147-238 | a sync performs a round exactly when the operator is Managed, the platform supported, the driver's state known and not flipped, and the clock past the gate |
| `Schedule.PerformedSync` | pkg/operator/operator.go:233-256 | what a performed round leaves, in nanoseconds: the backoff's delay after a failure, one minute after a pass that blocks upgrades, one hour after a clean one, a day after a silenced one; and the timer armed for it |
| `Schedule.CleanPassWaitsAnHour` | pkg/operator/operator.go:322-354 | in every history from the start a round without errors and blocks, of a driver that is not Removed, leaves the gate and a timer at one hour, whatever came before |
| `Schedule.BackoffClosedForm` | pkg/operator/operator.go:240-255 | after any rounds the stored duration is min(60, 2^k) minutes, k counting the Steps since the last reset |
| `Schedule.BackoffFollowsRounds` | pkg/operator/operator.go:147-197 | in every history of syncs the controller's backoff is that of the rounds performed so far |
| `Schedule.HistoryDelays` | pkg/operator/operator.go:233-256 | so the closed form and the bounds of the delay hold in every history from the start |
| `Schedule.FailureDelays` | pkg/operator/operator.go:322-354 | base delay of the j-th failure in a row: min(60, 2^(j-1)) minutes, or min(60, 2^j) after a pass that blocks upgrades |
| `Schedule.BlockedPassDelay` | pkg/operator/operator.go:249-254 | a pass that blocks upgrades is repeated after one minute plus at most one percent |
| `Schedule.DelayBounds` | pkg/operator/operator.go:322-354 | between one minute and 1.01 hours, a day after a silenced round |
| `Schedule.RoundSpacing` | pkg/operator/operator.go:181-196 | successive performed rounds start more than the chosen delay apart |
| `Schedule.RoundsAreApart` | pkg/operator/operator.go:181-196 | in every history from the start any two rounds begin more than the earlier one's delay, and more than a minute, apart |
| `Schedule.TimerPassesGateExactlyIfClockAdvanced` | pkg/operator/operator.go:232-238 | the wake-up at the deadline passes the strict gate if and only if the clock advanced while the checks ran |
| `Schedule.NoLostWakeUp` | pkg/operator/operator.go:181-196 | in every history a performed round is followed by a timer beyond the gate or a queued key that is due |
| `Schedule.ElapsedTimersPerformRound` | pkg/operator/operator.go:181-196 | a sync after all timers have elapsed performs the next round |
| `Schedule.SilencingIsFixedExactlyWhen` | pkg/operator/operator.go:171-210 | for every set of driver states: every history without restart that sees only these keeps to one silencing if and only if Removed is not among them or nothing besides Managed and Removed is; the same for its performed rounds |
| `Schedule.SilencingIsFixedPerProcess` | pkg/operator/operator.go:171-176 | the sufficient half, from the start of the process and with syncs that end before the driver's state |
| `Schedule.ThirdStateHidesTheFlip` | pkg/operator/operator.go:199-210 | the instance: through a third state the flip happens without a restart |
| `Deprecation.CheckForDeprecation` | pkg/operator/operator.go:258-296 | for every order of the maps: blocks exactly when some host or vCenter version is too old or some hardware version is, and names such a reason |
| `Deprecation.DeprecatedExactlyWhen` | pkg/operator/operator.go:258-296 | after any reports: upgrades are blocked exactly when the API version last reported for some host or vCenter is too old or some reported hardware version is |
| `Deprecation.BelowMinimumExactlyWhenTooOld` | pkg/operator/operator.go:298-312 | the library's comparison is precedence below 6.7.3, and unparsable versions are not too old |
| `Deprecation.MinimumParses` | pkg/operator/operator.go:298-302 | the minimum itself parses as 6.7.3 |
| `Deprecation.DottedDigitsAreCompared` | vendor/github.com/blang/semver/semver.go:207-299 | any dotted string of digits is too old exactly when the library reads its first three components as numbers and these, zero-padded, are below 6.7.3 |
| `Deprecation.LeadingZeroNeverBlocks` | vendor/github.com/blang/semver/semver.go:240-285 | a leading zero in one of the first three components is a parse error, and such a version never blocks |
| `Deprecation.DottedVersionsAreCompared` | pkg/operator/operator.go:298-320 | a dotted list of uint64 numbers of any length is too old exactly when its first three components, zero-padded, are below 6.7.3 |
| `Deprecation.DecorationIsDropped` | vendor/github.com/blang/semver/semver.go:207-213 | white space around a dotted string of digits and a "v" in front of it do not matter |
| `Deprecation.DecoratedVersionsAreCompared` | vendor/github.com/blang/semver/semver.go:240-299 | with a pre-release identifier behind the third number a version is too old up to 6.7.3 itself, with build metadata below it |
| `Deprecation.LargeNumbersAreNotRead` | vendor/github.com/blang/semver/semver.go:239-290 | a component is read exactly below 2^64 |
| `Deprecation.NewReportsNeverUnblock` | pkg/operator/operator.go:258-296 | a report that replaces none never unblocks upgrades |
| `Deprecation.HardwareRoundTrip` | pkg/operator/operator.go:271-281 | "vmx-" and the decimal of n reads back as n for every non-negative int64, and is old exactly below 15 |
| `Text.SignedDecimals` | pkg/operator/operator.go:271-281 | strconv.ParseInt reads a decimal with either sign, exactly within int64 (the trimming before it leaves no "-") |
| `Text.PrefixDecidesBase` | pkg/operator/operator.go:271-281 | "0x", "0o" and "0b" say its base, and every further digit counts in it |
| `Cache.MatchDatastores` | pkg/cache/cache.go:152-178 | the nested loops pair every datastore with the first object of its name and name all others |
| `Cache.VSphereCache.GetDatacenterLocked` | pkg/cache/cache.go:77-114 | a cached datacenter without a remote call, otherwise one that is cached from now on, nothing on failure |
| `Cache.VSphereCache.GetDatastoresLocked` | pkg/cache/cache.go:116-183 | the cached list, or the loaded one, which is cached exactly when the load succeeded |
| `Cache.VSphereCache.GetDatacenter` | pkg/cache/cache.go:185-194 | answer and new contents of the cache |
| `Cache.VSphereCache.GetDatastore` | pkg/cache/cache.go:196-211 | first entry by name or path; new contents of the cache |
| `Cache.VSphereCache.GetDatastoreByURL` | pkg/cache/cache.go:213-230 | first entry by URL; new contents of the cache |
| `Cache.VSphereCache.GetDatastoreMo` | pkg/cache/cache.go:232-250 | first entry by name or path; new contents of the cache |
| `Cache.VSphereCache.GetDatastoreMoByReference` | pkg/cache/cache.go:252-269 | first entry by reference; new contents of the cache |
| `Cache.VSphereCache.GetStoragePods` | pkg/cache/cache.go:271-307 | the pods, none on any failure; new contents of the cache |
| `Cache.StepKeepsFaithful` | pkg/cache/cache.go:48-66 | every call keeps the cache faithful: lists are complete or absent, and loads are counted |
| `CacheTheorems.CacheRefinesDirectLookup` | pkg/cache/cache.go:77-307 | in any run with any faults every answer is that of a client without cache under the faults that can still be felt |
| `CacheTheorems.CalmCallsAreExact` | pkg/cache/cache.go:77-307 | a call without faults is answered from the vCenter's state, whatever failed before |
| `CacheTheorems.CalmReferenceLookup` | pkg/cache/cache.go:252-269 | in any run a call without faults for a reference finds the object paired with the first listed datastore that has it, and "not found" exactly when none has |
| `CacheTheorems.PairingExists` | pkg/cache/cache.go:152-178 | such a pairing exists wherever every listed datastore has an object of its name |
| `CacheTheorems.CalmURLLookup` | pkg/cache/cache.go:213-230 | the same for a URL, that of the paired objects |
| `CacheTheorems.CalmNameLookup` | pkg/cache/cache.go:196-250 | the same for a name or inventory path, asked for as object and as managed object |
| `CacheTheorems.CalmOtherAnswers` | pkg/cache/cache.go:77-307 | every other call without faults: storage pods, datacenters, and the errors of an unknown, empty or unmatched datacenter |
| `CacheTheorems.FoundOnceMeansNeverUnreachable` | pkg/cache/cache.go:121-124 | once a datastore of a datacenter was found, no fault affects later lookups there |
| `CacheTheorems.FailedLoadCachesNothing` | pkg/cache/cache.go:116-183 | a failed or partial load caches no list |
| `CacheTheorems.LoadedAtMostOnce` | pkg/cache/cache.go:116-183 | under each name it is asked for by, a datacenter is loaded at most once in any run, and exactly when its list is cached |
| `CacheTheorems.UnanswerableIsNeverLoaded` | vendor/github.com/vmware/govmomi/find/finder.go:444-446 | a datacenter that is empty or has an unmatched datastore is never loaded, and every datastore lookup there fails with an error other than "not found" |
| `CacheTheorems.CachedPairsAgree` | pkg/cache/cache.go:154-170 | every cached entry pairs a listed datastore, in listing order, with an object of its name |
| `CacheTheorems.OrphansAreUnmatched` | pkg/cache/cache.go:172-175 | the names reported are exactly those without a managed object |
| `CacheTheorems.ObjectAndMoAgree` | pkg/cache/cache.go:196-250 | in any run, a name finds the same datastore as object and as managed object |
| `CacheTheorems.FoundByURLHasURL` | pkg/check/util.go:51-54 | what is found by URL has that URL |
| `DatastoreSearch.GetDatastoreByURL` | pkg/check/util.go:32-58 | the first failure domain that does not answer "not found" decides; "unable to find" exactly when all do |
| `DatastoreSearch.DomainDecides` | pkg/check/util.go:41-55 | without faults the search passes a domain exactly when its datacenter can be listed and has no such datastore, and ends with a find exactly when it can be listed and has one |
| `DatastoreSearch.FindsExactlyWhenDomainsAnswer` | pkg/check/util.go:41-58 | a datastore that some domain has is found exactly when that domain and all before it are connected, not empty and fully paired |
| `RepeatedSearches.SuccessIsCalm` | pkg/check/util.go:32-58 | a search on caches that ends with a datastore or with "unable to find" answers as one without faults, whatever it met, and has cached all it looked at |
| `RepeatedSearches.SuccessfulSearchStays` | pkg/check/util.go:32-58 | from then on, with any calls and faults in between, the search gives the same answer; after "unable to find" any URL is searched as without faults |
| `Platform.PlatformSpec.ConvertIntree` | pkg/check/util.go:271-283 | appends one vCenter and one failure domain if the workspace server is known |
| `Platform.PlatformSpec.ConvertMissing` | pkg/check/util.go:239-256 | for every order of the map converts exactly the connected vCenters that were missing |
| `Platform.ConvertToPlatformSpec` | pkg/check/util.go:228-269 | the converted spec for the order chosen |
| `Resolve.ConvertedKeys` | pkg/check/util.go:239-256 | converted are the connections whose vCenter the spec does not list, or the only connection if it lists none |
| `Resolve.ConvertedSizes` | pkg/check/util.go:228-269 | one vCenter and one failure domain per converted connection, all behind the original ones; the workspace's domain alone if there would be none |
| `Resolve.ConvertedFields` | pkg/check/util.go:271-300 | field by field: each added vCenter has the connection's name and the pieces of the workspace server's datacenters, each added domain the connection's name and the workspace's datacenter, folder, resource pool and datastore, and nothing else |
| `Resolve.ConversionAddsMissingOnce` | pkg/check/util.go:239-262 | for every order: originals stay in front, one vCenter and one domain per missing connection, at least one domain, and every connection is listed |
| `Resolve.SingleVCenterResolvesEveryNode` | pkg/check/util.go:228-405 | one connection and no spec resolve every node to it, whatever its labels |
| `Resolve.GetVCenter` | pkg/check/util.go:309-405 | the resolution, for every label and spec |
| `Resolve.NeverGuesses` | pkg/check/util.go:309-383 | with several domains a node is resolved exactly through the first one with both of its labels |
| `Resolve.NeverGuessesByLabels` | pkg/check/util.go:309-383 | in terms of the labels as they are: a beta label counts where the topology label is absent |
| `Resolve.FewDomainsDecide` | pkg/check/util.go:309-405 | with one domain a node is resolved through it, with none through the only connection |
| `Resolve.PassingConfigMakesResolutionTotal` | pkg/check/util.go:309-405 | after a passing CheckInfraConfig the conversion adds nothing and no node meets an unconnected vCenter |
| `Resolve.DecideReadOnly` | pkg/check/node_cluster_permissions.go:62-99 | the read-only decision |
| `Resolve.ReadOnlyExactlyWhen` | pkg/check/node_cluster_permissions.go:62-99 | read-only exactly when the legacy config names a resource pool, or the only domain, or one with the node's region and zone, has a pool that is not a default one |
| `Resolve.ReadOnlyDisagreesExactly` | pkg/check/node_cluster_permissions.go:65-99 | the exact condition under which it differs from the resolved domain's own pool |
| `Resolve.ReadOnlyFollowsResolvedDomain` | pkg/check/node_cluster_permissions.go:65-99 | with unique region and zone pairs the resolved domain decides |
| `InfraConfig.CheckVCenters` | pkg/check/infra_config.go:44-67 | a count mismatch alone, otherwise every vCenter missing in the cloud config |
| `InfraConfig.CheckFailureDomains` | pkg/check/infra_config.go:69-96 | every failure domain with an unknown server and every vCenter that no domain uses |
| `InfraConfig.CheckInfraConfig` | pkg/check/infra_config.go:14-42 | the errors of both, none for a missing or legacy spec, and passing in terms of sets of servers |
| `InfraConfig.ErrorsAre` | pkg/check/infra_config.go:44-96 | error by error, in terms of the servers in the spec and in the cloud config |
| `InfraConfig.PassesExactlyWhenServersAgree` | pkg/check/infra_config.go:14-96 | with distinct vCenters it passes if and only if the three sets of servers are equal |
| `InfraConfig.PassingSpecAgreesExactlyWhenDistinct` | pkg/check/infra_config.go:44-96 | a passing spec with a failure domain lists exactly the config's servers if and only if it lists none twice |
| `InfraConfig.DuplicateHidesMissingVCenter` | pkg/check/infra_config.go:44-67 | a duplicate makes it pass on different sets |
| `DatacenterConsistency.ParseDatacenters` | pkg/check/datacenter_consistency.go:77-86 | the trimmed non-empty pieces |
| `DatacenterConsistency.WhiteSpaceIsTrimmed` | pkg/check/datacenter_consistency.go:77-86 | a name with white space around it is read as the name, and white space alone as no name |
| `DatacenterConsistency.ParsingUndoesJoining` | pkg/check/datacenter_consistency.go:77-86 | parsing undoes joining of clean names |
| `DatacenterConsistency.ParsingDistributes` | pkg/check/datacenter_consistency.go:77-86 | parsing distributes over concatenation with a comma |
| `DatacenterConsistency.ReparsingIsStable` | pkg/check/datacenter_consistency.go:77-86 | parsed names are clean, and joining and parsing them again changes nothing |
| `DatacenterConsistency.SplitAgreesExactlyWhenClean` | pkg/check/util.go:271-283 | the conversion reads the same list as parseDatacenters exactly when every piece is clean |
| `DatacenterConsistency.CheckDatacenterConsistency` | pkg/check/datacenter_consistency.go:15-75 | all errors in order, and none exactly when every domain's datacenter is listed wherever its server has an entry |
| `DatacenterConsistency.InconsistenciesAre` | pkg/check/datacenter_consistency.go:15-75 | reported is each domain whose datacenter the cloud config of its server, or the first vCenter entry of its server, does not list, and nothing else |
| `Tags.ValidateTagCategories` | pkg/check/zones.go:40-68 | the first pair of ids that is complete, later categories unread |
| `Tags.CategoriesFoundExactlyWhenPresent` | pkg/check/zones.go:40-68 | succeeds exactly when both categories exist, with ids of these names |
| `Tags.ValidatedAtFirst` | pkg/check/zones.go:40-68 | validation ends with the first categories after which both ids are there, and fails when they never are |
| `Tags.IdsOfLatest` | pkg/check/zones.go:40-68 | the ids are those of the latest categories of the two names |
| `Tags.ValidateTagAttachment` | pkg/check/zones.go:93-146 | lists exactly the kinds for which no attached object allowed by the affinity carries a tag of the category |
| `Tags.AttachedExactlyWhen` | pkg/check/zones.go:93-146 | a region tag counts on any object, or with an affinity only on a datacenter or a cluster; a zone tag likewise only on a cluster |
| `Tags.AffinityOnlyNarrows` | pkg/check/zones.go:93-146 | an affinity only narrows, more tags never break |
| `HostGroups.ScanGroups` | pkg/check/cluster_host_group.go:82-104 | presence of both groups and the hosts of every host group of the name |
| `HostGroups.Unmatched` | pkg/check/cluster_host_group.go:124-146 | the map that is deleted from keeps exactly the hosts without the zone's tag |
| `HostGroups.CheckDomain` | pkg/check/cluster_host_group.go:82-162 | reports each problem that holds and nothing else, each host once, for every order of the map |
| `HostGroups.CheckHostGroups` | pkg/check/cluster_host_group.go:16-168 | the first fatal failure, or exactly the problems of all domains |
| `HostGroups.ProblemsAre` | pkg/check/cluster_host_group.go:82-162 | problem by problem, in terms of the cluster's groups, rules and tags: all hosts of every host group of the name are looked at |
| `HostGroups.FatalIs` | pkg/check/cluster_host_group.go:16-80 | which failure ends the check at a domain: the first that applies, in a fixed order |
| `HostGroups.DomainPassesExactlyWhen` | pkg/check/cluster_host_group.go:82-162 | when a domain has nothing to report |
| `NodePerf.HasHighLatency` | pkg/check/node_perf.go:173-195 | an error exactly when some series of some entity is too slow |
| `NodePerf.AccumulatorIsWrappedSum` | pkg/check/node_perf.go:178-186 | the accumulator is the true sum modulo 2^64 |
| `NodePerf.SumAdds` | pkg/check/node_perf.go:184-186 | that true sum counts every sample once |
| `NodePerf.AverageExceedsExactlyWhen` | pkg/check/node_perf.go:187-188 | the truncated average exceeds a level exactly when the sum reaches the next multiple |
| `NodePerf.TooSlowExactlyWhen` | pkg/check/node_perf.go:173-198 | for every series: at least 30 samples and a sum, wrapped to int64, of at least (errorLevel+1) times their number |
| `NodePerf.AgreesWithTrueSumExactlyWhen` | pkg/check/node_perf.go:178-188 | by the number and direction of the wraps, exactly when the verdict is the one of the true sum |
| `NodePerf.BoundedSamplesDoNotOverflow` | pkg/check/node_perf.go:184-186 | a per-sample bound under which the accumulator is the true sum |
| `NodePerf.OverflowHidesLatency` | pkg/check/node_perf.go:184-188 | samples whose sum wraps to zero pass |
| `NodePerf.CheckNodePerf` | pkg/check/node_perf.go:218-239 | the decision table: the master flag decides for masters, the worker flag for the other workers |
| `NodePerf.PerfMetricIDs.BuildCounterIdMap` | pkg/check/node_perf.go:60-110 | the map of metric ids is built once, from the first answers that name a metric |
| `NodePerf.LearnedId` | pkg/check/node_perf.go:60-110 | the id of a metric is that of the last counter with its name whose key is available, and there is none if no such counter exists |
| `NodePerf.FirstVCenterDecidesIds` | pkg/check/node_perf.go:60-110 | whatever vCenters follow, the ids are those of the first |
| `NodePerf.AskedForOwnIdExactlyWhen` | pkg/check/node_perf.go:60-125 | a vCenter is asked for its own id exactly when the first one up to it that names a metric has the same |
| `NodePerf.AllAskedForOwnIdExactlyWhenAgree` | pkg/check/node_perf.go:60-125 | every vCenter that names a metric is asked for its own id if and only if all of them agree |
| `NodePerf.OrderDoesNotMatterExactlyWhenAgree` | pkg/check/node_perf.go:46-110 | the id in use does not depend on the order of the calls if and only if they agree |
| `NodePerf.SecondVCenterIsAskedForForeignId` | pkg/check/node_perf.go:60-110 | the failing instance: of two vCenters that number a metric differently, the second is asked for the first one's id |
| `NodePerf.PerformMetricCheck` | pkg/check/node_perf.go:127-201 | when a node fails, passes or cannot be checked |

## Left out

- Network calls, login, listers, the Kubernetes and vSphere clients: oracles that give a value or an error.
- Panics inside checks: tasks return; `worker` does not recover from one either.
- A second call of `Wait` on one pool: the caller waits at most once.
- `ClaimingChecks.Claims.CheckNodePermissions`: the check's map has no lock in the program; the model takes looking up and storing a key as one step, the call's CheckNode event, as the ESXi check's mutex makes it.
- `ClaimTheorems.ResultsAreFixedExactlyWhenFirstAgree`: the nodes of the list are distinct, as the API server keeps their names.
- `ThreadPool.InvStep`: workers, waiter and main goroutine are one step relation on values, not classes; the memory model and data races on the maps of the permission check are not part of it.
- Effects: `os.Exit` (the outcome Restart ends a process), logging, events, Prometheus registration, `updateConditions`.
- `Schedule.Controller.Step`: jitter is any amount up to one percent; its floating point representation is not modelled.
- `Deprecation.NewReportsNeverUnblock`: a report that replaces an earlier version of the same host or vCenter can unblock, and is excluded.
- `Deprecation.BelowMinimumExactlyWhenTooOld`: the order among pre-release identifiers is not needed, as the minimum has none.
- `Resolve.PassingConfigMakesResolutionTotal`: a spec without failure domains is legacy configuration, which CheckInfraConfig does not look at.
- `getVM`, `node_provider.go`, `node_uuid.go`, `info.go`, `tasks.go`, `folder.go`, `count_pv_types.go`, `permissions.go`, storage policies: lookups and one-branch checks that would add only easy members.
- `CheckZoneTags` around `validateTagAttachment`: the regular expression for cluster paths and the client calls.
- The loop of the latency check's `CheckNode` over its single metric definition.
- Parsing of INI and YAML configuration.
- Texts of errors beyond the items they name.
- `DatastoreSearch.GetDatastoreByURL`: the caches of the vCenters are represented by their answers, which `CacheRefinesDirectLookup` gives, and in `RepeatedSearches` by their contents, not as objects on the heap.
- `LatencySchedules.LatencyScheduleDoesNotMatter`: sufficient only; when the first teachers disagree, or a node that does not teach fails with the agreed id, the results can still coincide.
- An empty list of storage pods is treated as not cached, whether the client library hands it out as nil or as an empty slice; the answers are the same.
