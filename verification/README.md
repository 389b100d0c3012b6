# n6: verified models of its stateful components

n6 collects, processes and distributes information on network security. This project models the parts
of it that keep state which has to stay right over long runs, and proves what they are there for:

* **The inter-process prefetch synchronizer** (`FileLocks`, `PrefetchSynchronizer`, `PrefetchJob`, `PrefetchDeadlock`,
  `PrefetchDecision`). Processes that share a pickle cache elect one of them, with four `flock` locks, to
  load and pickle fresh authorization data while the others wait. The program of a process is a table of
  lock instructions (one per source line); any number of processes interleave, a change of lock mode is a
  release followed by an acquisition, and an exception may strike at any line up to the final release of the
  locks. On top of it, `PrefetchDecision` models the decision which data a run returns and how long it sleeps.
* **The aggregator** (`PayloadStorage`, `PayloadLayouts`, `AggregatorState`, `AggregatorHistories`,
  `OrderedDicts`, `Aggregation`, `GroupingRules`, `Overwriting`, `AggregatorSource`): the append-only payload log with
  shared handles that is compacted in place; the rewriting of the two state files as a sequence of steps,
  before each of which an exception may strike, over whole lives of processes; and the grouping of events with its two ordered dictionaries and
  early-stopping scans.
* **The threaded AMQP pusher** (`ThreadedPusher`): any number of pushing and closing threads and one
  publishing thread, over a flag, two locks, a bounded queue and a wake-up sentinel.
* **Access conditions** (`Conditions`, `CondOptimizing`, `CondHardening`, `SqlConditions`, `IpNetworks`,
  `AccessFiltering`): condition objects with the reductions of their constructors, the optimizing and
  hardening transformers, SQL under three-valued logic, and the whole way from subsources and criteria
  containers to the `WHERE` condition.
* **The inside-criteria index** (`InsideCriteria`): a swept list of IP borders and a bisection.
* **Comparator and recorder** (`Comparison`, `ComparisonRuns`, `ComparisonSeries`, `ComparatorObjects`,
  `ComparatorProcess`, `Recording`, `ComparatorRecorder`): blacklists delivered in series become differences,
  which the recorder replays; restarts keep the blacklists with their flags but forget the open series.
* **The blacklist archive and the notifier** (`BlacklistArchive`, `Notifier`).

Protocols are step systems over any number of processes or threads; what holds in every reachable state
is proved as an invariant. Objects that the program updates in place are classes whose methods are proved
equal to functions on values, and the laws are proved about those functions.

What the model shows about the code beyond its promises:

* Three processes can reach a wait cycle (OUTCOME exclusive, JOB shared, ACTIVITY exclusive); this is the
  only way to get stuck, and it never resolves by itself (`ThreeProcessesCanGetStuck`,
  `StuckIsExactlyTheCycle`, `CycleIsPermanent`).
* The assertion in the synchronizer's `__exit__` fails exactly when an exception comes while ACTIVITY is
  being switched back from exclusive to shared (`ExitAssertionFailsOnlyMidSwitch`); a single process can get
  there (`ExitAssertionCanFail`).
* While both aggregator files are rewritten, the promise "the old files are intact, or an integrity error is
  raised" fails in two windows: between the rename of the data file and line 786, and from line 788 on,
  unless the rewrite has nothing to do (`PromiseHoldsExactly`, `PromiseFailsExactlyInTheWindows`). In the
  first window the next start may succeed with an event that loads the payload of another one
  (`UnreportedMixLoadsAnotherPayload`); a layout is safe from that if and only if no dead payload and no gap
  comes before a live one (`MixedPairFitsExactly`).
* A buffered group may be overwritten by a later group of the same key. When it counts more than 1, the events
  after its first one are then never published (`EverythingIsPublishedExactly`); with events in time order
  that can happen to a source if and only if it has a time tolerance (`SafeExactlyWithoutTolerance`,
  `AroundMidnightLosesACount`).
* Keys brought by a series that a restart interrupted keep their flags, so they stay on the blacklist after
  the next series although it does not list them (`SeriesAfterRestart`, `InterruptedSeriesLeavesItsKey`).
* A notification that fails after reaching some of a client's addresses is told to them again
  (`EverythingIsReportedOnce` has the exact condition).

## Model

| member | source | states |
|---|---|---|
| FileLocks.LockFile.Flock | N6Lib/n6lib/auth_api.py:3119-3150 | the kernel grants a mode only when no other process holds one that excludes it; a refused change of mode has already lost the old one |
| FileLocks.InterprocessLock.Acquire | N6Lib/n6lib/auth_api.py:3119-3173 | the lock object's opinion and the kernel's table after any attempt, granted, refused or waiting; a refused attempt leaves the object as it was |
| FileLocks.InterprocessLock.Release | N6Lib/n6lib/auth_api.py:3175-3185 | after a release neither the kernel nor the object holds the lock; other processes' modes are untouched |
| PrefetchSynchronizer.JobExcludesReaders | N6Lib/n6lib/auth_api.py:2964-3026 | while one process does the job, no other holds ACTIVITY in any mode, none is inside the `with` body and none does the job too |
| PrefetchSynchronizer.FilesAreStableForReaders | N6Lib/n6lib/auth_api.py:2785-2821 | whoever changes the pickle or the metadata file, no other process is inside the `with` body before or after the change |
| PrefetchSynchronizer.ReadersSeeConsistentFiles | N6Lib/n6lib/auth_api.py:2809-2819 | a process inside the `with` body finds metadata that describe the pickle file, or none, unless removing the metadata file has once failed |
| PrefetchSynchronizer.ActivityExclusiveOnlyWithJob | N6Lib/n6lib/auth_api.py:3045-3055 | ACTIVITY is held exclusively only by the holder of JOB exclusive, in every reachable state, exceptional cleanup included |
| PrefetchSynchronizer.ImmediateActivitySucceeds | N6Lib/n6lib/auth_api.py:3070-3080 | whoever is at the non-blocking acquisition of ACTIVITY is granted it |
| PrefetchSynchronizer.NoUnexpectedError | N6Lib/n6lib/auth_api.py:2922-2951 | the `RuntimeError` is unreachable, and every lock-state assertion but the one in `__exit__` holds on every run |
| PrefetchSynchronizer.ExitAssertionFailsOnlyMidSwitch | N6Lib/n6lib/auth_api.py:2958-2962 | the assertion in `__exit__` holds if and only if the exception did not come between losing ACTIVITY exclusive and getting it shared again |
| PrefetchDeadlock.ExitAssertionCanFail | N6Lib/n6lib/auth_api.py:2958-2993 | for every number of processes, a run of a single one reaches the middle of that switch, and an exception there leads to `__exit__` with its assertion false |
| PrefetchSynchronizer.BlockedMeansNoMove | N6Lib/n6lib/auth_api.py:2913-3031 | a process is blocked if and only if it has no step other than raising an exception |
| PrefetchSynchronizer.StuckIsExactlyTheCycle | N6Lib/n6lib/auth_api.py:2913-3031 | for any number of processes, all engaged processes are blocked if and only if each of them waits at one of the three places of the cycle and all three places are taken |
| PrefetchSynchronizer.TwoProcessesNeverStuck | N6Lib/n6lib/auth_api.py:2913-3031 | no run with at most two processes gets stuck |
| PrefetchSynchronizer.CycleIsPermanent | N6Lib/n6lib/auth_api.py:2937-3030 | once three processes are in the cycle, no run without exceptions moves any of the three |
| PrefetchSynchronizer.SomeRunEnds | N6Lib/n6lib/auth_api.py:2913-3031 | from every reachable state some run without exceptions takes everybody out of the `with` block, or into a stuck state |
| PrefetchSynchronizer.TwoProcessesCanAlwaysFinish | N6Lib/n6lib/auth_api.py:2913-3031 | with at most two processes every reachable state can be left by everybody |
| PrefetchSynchronizer.RaisesExactly | N6Lib/n6lib/auth_api.py:2913-3062 | an exception may strike at every place of the `with` block up to the final release of the locks, and at no other |
| PrefetchSynchronizer.ExceptionFreesEverything | N6Lib/n6lib/auth_api.py:2952-2962 | whatever exception strikes, and wherever: the process leaves the block without any lock by at most six steps of its own, touching no other process, and the metadata file is removed exactly when the exception came while storing |
| PrefetchJob.JobGetsDone | N6Lib/n6lib/auth_api.py:2913-3031 | whenever nobody is engaged, any process can by its own steps enter, get the job, store any version in both files, serve the others and leave, and only the files have changed then |
| PrefetchJob.ServedMeansNobodyLate | N6Lib/n6lib/auth_api.py:3026-3031 | once the server has got OUTCOME, no other process is between having come late and having left or gone for the job itself |
| PrefetchDeadlock.ThreeProcessesCanGetStuck | N6Lib/n6lib/auth_api.py:2937-3030 | for every number of processes from three on, a stuck state is reachable from the start |
| PrefetchDecision.PrefetchTask.TryOnce | N6Lib/n6lib/auth_api.py:1129-1202 | one attempt on the loop's own variables returns and sets what the decision function says, whatever the database, the files and the other processes answer |
| PrefetchDecision.PrefetchTask.Run | N6Lib/n6lib/auth_api.py:1103-1126 | one run of `task_target_func()`, repeated attempts and the fallback on an error included, and what it leaves as the last returned data |
| PrefetchDecision.AdjustedIsInOrder | N6Lib/n6lib/auth_api.py:1259-1309 | after the checks and adjustments neither the pickled nor the last returned data contradict the database, nor each other; so the assertions that follow cannot fail |
| PrefetchDecision.FreshOrTolerable | N6Lib/n6lib/auth_api.py:1129-1202 | what an attempt returns is at least the peeked version, or outdated by less than the tolerance plus min(1.5 x job duration, 1800), and the sleep set with it ends within that allowance |
| PrefetchDecision.LoadsOnlyWhenNeeded | N6Lib/n6lib/auth_api.py:1156-1202 | in the ordinary case the outcome depends on loading from the database if and only if neither the last returned nor the pickled data are fresh or tolerable |
| PrefetchDecision.LastIsPreferred | N6Lib/n6lib/auth_api.py:1147-1158 | when the last returned data suffice, they are returned, with the sleep that fits their age, whatever the pickle holds |
| PrefetchDecision.PickleIsNext | N6Lib/n6lib/auth_api.py:1164-1177 | else, when the pickled data suffice, they are unpickled and returned |
| PrefetchDecision.LoadsExactlyWhenDesignated | N6Lib/n6lib/auth_api.py:1160-1202 | else the designated process (or any, without pickling) loads, pickles and returns the fresh data and raises what fails, and every other process tries again |
| PrefetchDecision.AgainExactly | N6Lib/n6lib/auth_api.py:1160-1202 | in the ordinary case an attempt is to be repeated if and only if pickling is on, the cache does not suffice and the process is not designated |
| PrefetchDecision.AsksDatabaseExactly | N6Lib/n6lib/auth_api.py:1160-1202 | the outcome depends on what loading or storing gives if and only if the cache does not suffice and, with pickling, the process is designated |
| PrefetchDecision.ContradictionsAreIgnored | N6Lib/n6lib/auth_api.py:1227-1309 | what contradicts the database or the other values is ignored as if it had never been there, so that every other case goes as an ordinary one; an attempt fails at once if and only if a value cannot be had or is not legal |
| PrefetchDecision.AllowanceExactly | N6Lib/n6lib/auth_api.py:1345-1354 | the allowance is the tolerance plus, with usable metadata, the lesser of 1.5 times the job's duration and 1800 seconds |
| PrefetchDecision.RunEndsExactly | N6Lib/n6lib/auth_api.py:1103-1126 | a run repeats until the first attempt that is decisive and returns its data; if that one fails, the run gives the last returned data if and only if they are not older than the tolerance on error, and else gives up |
| PrefetchDecision.VersionNeverGoesBack | N6Lib/n6lib/auth_api.py:1227-1297 | unless the database contradicts the last returned data, nothing older than those is returned, whatever the pickle holds |
| PrefetchDecision.RebuiltDatabaseIsFollowed | N6Lib/n6lib/auth_api.py:1274-1285 | the condition above is needed: a database rebuilt with a lower version is followed back |
| PrefetchDecision.VersionsNeverGoBack | N6Lib/n6lib/auth_api.py:1103-1202 | over any number of runs along one history of the database, each starting from what the one before returned, with failures in between and pickles from any moment, the returned versions never decrease |
| PayloadStorage.ReadPayloadExactly | N6DataPipeline/n6datapipeline/aggregator.py:352-361 | reading a payload gives exactly its bytes if and only if all of them are there and begin with a format prefix; reading none fails an assertion, everything else is an integrity error |
| PayloadStorage.PayloadStorage.SavePayloadBytes | N6DataPipeline/n6datapipeline/aggregator.py:308-335 | a payload goes to the end of the file, and its handle then loads exactly its bytes |
| PayloadStorage.PayloadStorage.ShrinkDiskSpace | N6DataPipeline/n6datapipeline/aggregator.py:229-294 | the new content is the payloads of the live handles in order, and the shared handle objects get their new offsets in place; errors exactly when a check fails |
| PayloadStorage.PayloadStorage.Shrink | N6DataPipeline/n6datapipeline/aggregator.py:229-301 | shrinking and reopening keeps exactly the live handles, each loading the bytes it loaded before, contiguous from 0 in the old order, with the file length equal to the sum of their sizes, and raises no integrity error |
| PayloadStorage.GatherIsCompaction | N6DataPipeline/n6datapipeline/aggregator.py:255-294 | the rewritten file with the rewritten offsets holds the same payloads contiguously, fills the file, and is again a valid layout |
| PayloadStorage.LaidIsCopyable | N6DataPipeline/n6datapipeline/aggregator.py:260-290 | a valid layout passes every integrity check made while copying |
| PayloadStorage.GrowthKeepsPayloads | N6DataPipeline/n6datapipeline/aggregator.py:303-335 | a payload reads the same after anything is appended |
| PayloadStorage.KeepsExactlyTheLive | N6DataPipeline/n6datapipeline/aggregator.py:229-294 | the handles kept are those of the list that some event still uses, and no other |
| AggregatorState.MaintainOutcomes | N6DataPipeline/n6datapipeline/aggregator.py:777-825 | for an exception before any step of the rewrite: it never finds the state corrupted, each file is the new one exactly when its rename is done, and the exception is an integrity error exactly between raising and lowering the flag |
| AggregatorState.MaintainAgrees | N6DataPipeline/n6datapipeline/aggregator.py:777-825 | the files fit together, the data file's handles loading either what was stored before or exactly the payloads still wanted, unless the exception comes between the two renames and a dead payload or a gap precedes a live one |
| AggregatorState.MixedPairFitsExactly | N6DataPipeline/n6datapipeline/aggregator.py:784-812 | between the renames the new handles load the wanted payloads from the old storage file, whatever the payloads are, if and only if no dead payload and no gap comes before a live one |
| AggregatorState.PromiseHoldsExactly | N6DataPipeline/n6datapipeline/aggregator.py:707-825 | of any state that a start finds: "it succeeds, or the old files are intact, or an integrity error is raised" holds if and only if the exception comes outside the windows (after the data file's rename and before the flag is raised; after the flag is lowered), or all stored handles are live without gaps and, in the second window, nothing lies behind them |
| AggregatorHistories.ExampleIsReached | N6DataPipeline/n6datapipeline/aggregator.py:707-849 | a first start, two payloads saved, the first finished and an orderly stop leave the very state of the two results below |
| AggregatorHistories.PromiseFailsExactlyInTheWindows | N6DataPipeline/n6datapipeline/aggregator.py:784-825 | over all histories, every start keeps that promise if and only if the exception comes outside the windows |
| AggregatorState.UnreportedMixLoadsAnotherPayload | N6DataPipeline/n6datapipeline/aggregator.py:784-812 | in the first window the start after that stop ends with a plain exception, the next one succeeds, and the one event still kept loads the payload of the finished one |
| AggregatorHistories.RunAgrees | N6DataPipeline/n6datapipeline/aggregator.py:710-849 | over any history of saves, stops, crashes, failed and interrupted rewrites, every handle in the data file and in memory loads from the storage file the payload it was made for, which follows from the operations alone, and there are no gaps |
| AggregatorHistories.StartBringsBackTheLastStoredState | N6DataPipeline/n6datapipeline/aggregator.py:711-849 | after any such history the next start succeeds, its handles load from the storage file exactly the payloads that, by the operations alone, were wanted when the state was last written, and the file holds nothing else |
| AggregatorHistories.StopThenStart | N6DataPipeline/n6datapipeline/aggregator.py:711-849 | after a stop and a start the handles load exactly the payloads still wanted, in order, from a file that holds nothing else |
| Aggregation.ProcessEventBalances | N6DataPipeline/n6datapipeline/aggregator.py:564-620 | one accepted event raises the counts held, plus those overwritten in the buffer, by one, and the number of groups likewise by one exactly for a True result; a rejected one changes neither |
| Aggregation.GenerateBalances | N6DataPipeline/n6datapipeline/aggregator.py:622-648 | generating suppressed events moves counts and groups without losing any: held + yielded + overwritten stay the same |
| Aggregation.EveryEventIsCountedOnce | N6DataPipeline/n6datapipeline/aggregator.py:564-661 | over any run, in any order of times: accepted events = counts held + yielded + overwritten, and True results = groups held + yielded + overwritten |
| Aggregation.ScanTakesExactlyTheStale | N6DataPipeline/n6datapipeline/aggregator.py:622-636 | on sorted groups the early-stopping scan takes exactly the groups silent for 12 hours or of another day |
| Aggregation.JoinsExactly | N6DataPipeline/n6datapipeline/aggregator.py:598-620 | in time order an event joins the present group of its key if and only if it comes within 12 hours of the group's last event and on the day of its *first* one; else that group goes to the buffer unchanged and a new one starts at the end |
| Aggregation.AcceptInOrder | N6DataPipeline/n6datapipeline/aggregator.py:1001-1014 | an event in time order is accepted, groups stay sorted by `until`, none spans two days, and exactly the stale ones leave |
| Aggregation.RunInOrder | N6DataPipeline/n6datapipeline/aggregator.py:1001-1014 | a whole run in time order, clean-ups of an inactive source at any moment included, accepts every event and keeps all of that |
| GroupingRules.RejectsExactly | N6DataPipeline/n6datapipeline/aggregator.py:564-573 | for groups in any order, an event is refused if and only if it is older than the tolerance allows and no present group of its key began at or before it; then only the source's time changes |
| GroupingRules.LateEventJoins | N6DataPipeline/n6datapipeline/aggregator.py:570-579 | an accepted late event is counted in its key's group, which keeps its place and first time and ends at the later of the two times; buffer and other groups stay |
| GroupingRules.UnknownKeyExactly | N6DataPipeline/n6datapipeline/aggregator.py:581-596 | an event whose key has no group is counted in a buffered namesake if it is older than the source's time and there is one, and otherwise begins a group, behind the others |
| GroupingRules.KnownKeyExactly | N6DataPipeline/n6datapipeline/aggregator.py:598-620 | an event of a present group goes last; the group goes on, or, when 12 hours passed, a day ended or a day was exceeded, a new one begins and the old one is buffered under its key |
| GroupingRules.GenerateExactly | N6DataPipeline/n6datapipeline/aggregator.py:622-648 | for groups in any order, a clean-up takes exactly those before the first one that stops the scan, merges them into the buffer (namesakes in their places, others behind) and yields the front of the buffer up to the first group not older than the tolerance |
| Overwriting.OverwritesExactly | N6DataPipeline/n6datapipeline/aggregator.py:598-636 | an accepted event overwrites exactly these groups: the buffered namesake of the group it ends, if any, and those of the groups that the scan then takes |
| Overwriting.OverwritesNothingExactly | N6DataPipeline/n6datapipeline/aggregator.py:598-636 | so nothing is overwritten if and only if none of these has a namesake in the buffer |
| Overwriting.NothingIsLostExactlyWithoutCollisions | N6DataPipeline/n6datapipeline/aggregator.py:564-661 | over any run in any order of times, accepted events = counts held + yielded if and only if no accepted event overwrites a group that counts anything |
| Overwriting.EverythingIsPublishedExactly | N6DataPipeline/n6datapipeline/aggregator.py:640-660 | over any run in any order of times, accepted events = events published at once + repeats told by yielded groups + repeats still held, if and only if no accepted event overwrites a group that counts more than 1 |
| Overwriting.CollidesInOrder | N6DataPipeline/n6datapipeline/aggregator.py:598-636 | for an event in time order the condition needs only the state before the call: some group becomes stale while an older one of its key is in the buffer |
| Overwriting.AroundMidnightLosesACount | N6DataPipeline/n6datapipeline/aggregator.py:598-660 | with any time tolerance, three events of one key around midnight and one of another key 13 hours later overwrite a group counting 2, whose second event is never published |
| Overwriting.SafeExactlyWithoutTolerance | N6DataPipeline/n6datapipeline/aggregator.py:598-660 | no run in time order overwrites a group counting more than 1 if and only if the time tolerance is zero; then none overwrites anything |
| AggregatorSource.SourceData.ProcessEvent | N6DataPipeline/n6datapipeline/aggregator.py:564-620 | on shared event objects updated in place, the method has exactly the effect of the value function, and no object is ever stored twice |
| AggregatorSource.SourceData.GenerateSuppressedEvents | N6DataPipeline/n6datapipeline/aggregator.py:622-648 | the two scanning loops yield and move exactly what the value function says, and no object is ever stored twice |
| AggregatorSource.SourceData.GenerateAfterInactive | N6DataPipeline/n6datapipeline/aggregator.py:650-661 | everything in the buffer, then everything in the groups, is yielded, and both are emptied |
| ThreadedPusher.HandedInOrder | N6Lib/n6lib/amqp_getters_pushers.py:385-391 | at every moment the items handed on are a prefix of the items put, in the order they were put |
| ThreadedPusher.PushGoesOnExactly | N6Lib/n6lib/amqp_getters_pushers.py:385-391 | a push that has the lock goes on to put its item if and only if the flag is up |
| ThreadedPusher.PushPutsExactly | N6Lib/n6lib/amqp_getters_pushers.py:515-516 | it then puts the item, as the last one, if and only if there is room, and comes back normally, whatever others do meanwhile; without room it fails, and queue and log stay |
| ThreadedPusher.OneAtATime | N6Lib/n6lib/amqp_getters_pushers.py:127-129 | at most one thread is past the push lock and at most one past the shutdown lock, a thread waits for either exactly while some thread has it, and the queue never exceeds its capacity |
| ThreadedPusher.EveryListCanBePublished | N6Lib/n6lib/amqp_getters_pushers.py:385-391 | for every list of items and every capacity, some run of a freshly started pusher puts, hands on and returns exactly these items in order, and shuts down without an exception |
| ThreadedPusher.ShutdownMeansAllHandled | N6Lib/n6lib/amqp_getters_pushers.py:127-145 | once some `shutdown()` has returned without an exception, the items handed on are exactly those put, in order, and every item whose `push()` returned is among them |
| ThreadedPusher.LoopEndLosesNothing | N6Lib/n6lib/amqp_getters_pushers.py:556-564 | a publishing loop that ends by its own condition leaves nothing in the queue and nothing can be put any more |
| ThreadedPusher.LeftoversMakeShutdownRaise | N6Lib/n6lib/amqp_getters_pushers.py:533-547 | the check of `shutdown()`, whatever other threads do meanwhile, passes if and only if the publishing thread is dead and has handed on every item whose `push()` returned |
| ThreadedPusher.SentinelExactly | N6Lib/n6lib/amqp_getters_pushers.py:518-525 | the sentinel is put, as the last slot, if and only if the publishing thread was found alive and there is room when it is put, whatever others do in between |
| ThreadedPusher.JoinExactly | N6Lib/n6lib/amqp_getters_pushers.py:526-531 | `join()` without a timeout comes back exactly when the publishing thread is dead; afterwards the indicator is read if and only if that thread is found alive |
| ThreadedPusher.ShutdownRaisesExactly | N6Lib/n6lib/amqp_getters_pushers.py:127-145 | after that check, whatever others do, `shutdown()` gives both locks back, and comes back without an exception if and only if neither the check nor closing the connection raised one |
| ThreadedPusher.WaitsExactlyWhileLively | N6Lib/n6lib/amqp_getters_pushers.py:526-531 | after a `join()` that timed out with the publishing thread alive, the closing thread waits on if and only if that thread has begun a round of its loop since the indicator was cleared, in every interleaving |
| ThreadedPusher.AwakeAfterStop | N6Lib/n6lib/amqp_getters_pushers.py:518-531 | past the sentinel attempt, whether the sentinel was put or the queue was full, the publishing thread never waits at an empty queue |
| ThreadedPusher.PublisherUsesSteps | N6Lib/n6lib/amqp_getters_pushers.py:564-573 | with the flag down every step of a publisher whose handling returns uses up one of finitely many steps |
| ThreadedPusher.CallersAddNoSteps | N6Lib/n6lib/amqp_getters_pushers.py:518-531 | callers never add to these steps, but for another `shutdown()` putting its own sentinel |
| ThreadedPusher.PublisherDrains | N6Lib/n6lib/amqp_getters_pushers.py:556-578 | from any moment past the sentinel attempt, in every interleaving in which handling returns, the publisher goes round its loop at most once for each slot of the queue and each later sentinel, can always make its next step until it has ended, and has handed on everything when its bounded steps are used up |
| Conditions.MakeMultiMeans | N6Lib/n6lib/data_selection_tools.py:2090-2150 | the constructors' reductions (neutral and absorbing elements, flattening, deduplication, unwrapping, complements) keep the meaning |
| Conditions.MakeMultiBuilt | N6Lib/n6lib/data_selection_tools.py:2118-2150 | what a constructor returns is always fully reduced |
| CondOptimizing.FactoredOutMeans | N6Lib/n6lib/data_selection_tools.py:7049-7103 | factoring shared subconditions out keeps the meaning, whichever shared ones are extracted |
| CondOptimizing.FactoredOutLeaves | N6Lib/n6lib/data_selection_tools.py:7009-7046 | every factoring leaves strictly fewer leaves, so the recursion on its own result ends |
| CondOptimizing.FactorMeans | N6Lib/n6lib/data_selection_tools.py:7009-7103 | the whole factoring transformer ends and keeps the meaning |
| CondOptimizing.FactorShrinks | N6Lib/n6lib/data_selection_tools.py:7009-7103 | factoring never makes a condition larger, and makes it strictly smaller whenever something is shared |
| CondOptimizing.MergeEqualitiesMeans | N6Lib/n6lib/data_selection_tools.py:7593-7719 | merging equality tests under OR, and negated ones under AND, keeps the meaning |
| CondOptimizing.MergeEqualitiesIsFull | N6Lib/n6lib/data_selection_tools.py:7593-7719 | afterwards no two mergeable tests of one key stand side by side, at any depth |
| CondOptimizing.OptimizedIsMerged | N6Lib/n6lib/auth_api.py:1798-1815 | unless optimizing is switched off, in its result no OR has two subconditions that compare one key with values, and no AND two negated ones, at any depth |
| CondOptimizing.OptimizeShrinks | N6Lib/n6lib/auth_api.py:1798-1815 | the optimizer as a whole adds no leaves, and leaves fewer whenever something is shared |
| CondHardening.DeMorgan | N6Lib/n6lib/data_selection_tools.py:7870-7904 | the transformer ends on every condition, and in its result only record item conditions are negated |
| CondHardening.DeMorganMeans | N6Lib/n6lib/data_selection_tools.py:7870-7904 | De Morgan's laws keep the meaning |
| CondHardening.NullSafeMeans | N6Lib/n6lib/auth_api.py:2642-2653 | the added tests for NULL do not change the two-valued meaning |
| CondHardening.NullSafeGuards | N6Lib/n6lib/auth_api.py:2620-2653 | afterwards every negation that SQL would get wrong stands beside a test of its column for NULL, also after flattening |
| SqlConditions.IsTestsAreDecided | N6Lib/n6lib/auth_api.py:2656-2735 | in the modelled SQL a test of NULL is unknown exactly when it is not an `IS` test, and `IS NOT` is the opposite of `IS` |
| SqlConditions.GuardedIsExact | N6Lib/n6lib/auth_api.py:2656-2735 | a guarded condition converted to SQL is TRUE in three-valued logic if and only if it is true in two-valued logic with comparisons on NULL false |
| SqlConditions.HardenedIsExact | N6Lib/n6lib/auth_api.py:1816-1831 | hardening and converting any condition keeps its meaning on every row the table may hold, and never hits the converter's assertions |
| SqlConditions.NegationNeedsGuardExactly | N6Lib/n6lib/auth_api.py:2642-2653 | a bare negated test is right on all rows if and only if its column cannot be NULL or the test is an `IS` test: the step guards exactly the negations that need it |
| IpNetworks.MaskingIsBlock | N6SDK/n6sdk/addr_helpers.py:97-101 | the shifts, `&` and or on bits give the first and the last address of the block with the prefix |
| IpNetworks.BitByBit | N6SDK/n6sdk/addr_helpers.py:97-101 | the modelled `&` and or of numbers of any size are the operations on each of their bits |
| IpNetworks.RangeIsNetwork | N6SDK/n6sdk/addr_helpers.py:28-101 | the range got by masking and filling bits holds exactly the addresses with its prefix, except 0.0.0.0 |
| IpNetworks.RangeIsLegal | N6SDK/n6sdk/addr_helpers.py:28-101 | every network gives a range within the address space starting at 1 or above, or the one empty range (1, 0) |
| AccessFiltering.AccessConditionMeans | N6Lib/n6lib/auth_api.py:2424-2513 | the condition of a subsource is true of a row if and only if its source matches, every inclusion container with criteria matches, no exclusion container matches and, without full access, it is neither internal nor ignored |
| AccessFiltering.GrantedExactly | N6Lib/n6lib/auth_api.py:2373-2415 | a subsource is granted in a zone if and only if that zone's channel of the organization or of one of its groups lists it, directly or in a subsource group, and the organization's own "-ex" channel lists it in neither way |
| AccessFiltering.ZoneSqlSelectsExactly | N6Lib/n6lib/auth_api.py:2148-2197 | the SQL condition of an organization and zone selects a row if and only if some subsource that the organization may use by that rule selects it, through building, optimizing, hardening and converting |
| AccessFiltering.ExcludedSelectNothing | N6Lib/n6lib/auth_api.py:2373-2384 | a row that only subsources of the "-ex" channel select is never selected |
| AccessFiltering.NothingInternalWithoutFullAccess | N6Lib/n6lib/auth_api.py:2435-2445 | without full access no internal and no ignored event is ever selected |
| AccessFiltering.FailsExactlyOnEmptyLists | N6Lib/n6lib/auth_api.py:2474-2490 | preparing the condition fails if and only if a subsource that the organization may use has a container that names criteria but lists no value for any |
| InsideCriteria.Sweep | N6Lib/n6lib/auth_api.py:1618-1640 | borders ascend between the two guards, beside each stand exactly the organizations with a range over it, and no counter ever falls below zero |
| InsideCriteria.LookupIsExact | N6Lib/n6lib/auth_api.py:1703-1717 | the bisected index is in bounds, satisfies the code's own check of its neighbours, and its set is exactly the organizations with a range over the address |
| InsideCriteria.RangesOfNetworks | N6SDK/n6sdk/addr_helpers.py:28-101 | the ranges made of an organization's networks are legal input of the sweep and hold exactly the addresses with the prefix of some network, except 0.0.0.0 |
| InsideCriteria.NextBorder | N6Lib/n6lib/auth_api.py:1626-1632 | between two borders the number of ranges over an address changes by what starts minus what ends, and only open ranges end |
| InsideCriteria.InsideCriteriaResolver.GetClientOrgIds | N6Lib/n6lib/auth_api.py:1643-1717 | the organizations found are exactly those with a matching domain suffix or, unless the category is suffix-only, a matching AS number, country or IP range |
| Comparison.ProcessInputKeepsMatches | N6DataPipeline/n6datapipeline/comparator.py:363-460 | after every message, accepted, refused or failing, pending timers and open series correspond one to one, and every open series has counted distinct numbers only |
| Comparison.CompletesAfterTotalDistinctNumbers | N6DataPipeline/n6datapipeline/comparator.py:263-304 | a series is finalized only by the message that brings its `total`-th distinct number |
| Comparison.KeyExactly | N6DataPipeline/n6datapipeline/comparator.py:76-87 | the key of an event is its URL, or else its domain name, or else the multiset of its addresses; there is none exactly without all three |
| Comparison.RefusesExactly | N6DataPipeline/n6datapipeline/comparator.py:89-100 | an event is refused if and only if it is older than the source's time or has no key; the blacklist then stays |
| Comparison.EntryExactly | N6DataPipeline/n6datapipeline/comparator.py:89-127 | an accepted event leaves under its key an entry with its addresses, expiry time and series, whose id is the former one if and only if the addresses are the same; no other entry changes |
| Comparison.PublishesExactly | N6DataPipeline/n6datapipeline/comparator.py:102-127 | it is published as new if and only if its key was absent, as a change if and only if its addresses differ, as an update if and only if its expiry time alone differs, and otherwise not at all; with the entry's id, addresses and expiry time, and with the former id as the replaced one |
| Comparison.DeletedHas | N6DataPipeline/n6datapipeline/comparator.py:129-148 | a finalization keeps exactly the flagged entries not expired, unflagged and otherwise unchanged |
| ComparisonRuns.EveryRunIsTracked | N6DataPipeline/n6datapipeline/comparator.py:363-460 | over every run with one open series per source, flags mark exactly the keys the open series have brought |
| ComparisonRuns.FinalizationKeepsWhatWasBrought | N6DataPipeline/n6datapipeline/comparator.py:378-386 | finalizing a series leaves exactly the keys seen in it whose expiry is not before the source's time, with all flags cleared |
| ComparisonSeries.EveryRunMatches | N6DataPipeline/n6datapipeline/comparator.py:184-322 | over every run, however series overlap and wherever the process stops, crashes and restarts: pending timers match open series one to one, open series have counted distinct numbers only, and no blacklist has a key twice |
| ComparisonSeries.SeriesLeaves | N6DataPipeline/n6datapipeline/comparator.py:451-460 | from any state, a series delivered as a whole is accepted message by message and finalized by its last one, and leaves exactly the keys it listed and the keys flagged before it began, less those expired |
| ComparisonSeries.ReplacesBlacklistExactly | N6DataPipeline/n6datapipeline/comparator.py:451-460 | the blacklist is then exactly what the series listed, less what had expired, if and only if no other key was flagged before and is unexpired |
| ComparisonSeries.CompleteSeriesReplacesBlacklist | N6DataPipeline/n6datapipeline/comparator.py:451-460 | so it is whenever no other series of the source is open and none was interrupted |
| ComparisonSeries.SeriesAfterRestart | N6DataPipeline/n6datapipeline/comparator.py:186-216 | after a restart with the blacklists of a state, the next whole series replaces the blacklist if and only if it lists every key that the series open in that state had brought and that has not expired |
| ComparisonSeries.SeriesAfterCrash | N6DataPipeline/n6datapipeline/comparator.py:186-246 | the same after a crash at the end of any disciplined run, with the blacklists as the last finalization or timeout stored them and the series open at that moment |
| ComparisonSeries.StoppingKeepsBlacklists | N6DataPipeline/n6datapipeline/comparator.py:186-246 | after any run, a stop and a start keep every blacklist with its flags and forget the open series and timers; a crash right after changes nothing more |
| ComparisonSeries.InterruptedSeriesLeavesItsKey | N6DataPipeline/n6datapipeline/comparator.py:186-216 | one message, a restart and a whole series that lists another key leave both keys on the blacklist |
| ComparatorObjects.SourceData.ProcessNewMessage | N6DataPipeline/n6datapipeline/comparator.py:89-127 | the method on the object has exactly the effect and result of the value function, failing messages included |
| ComparatorObjects.SourceData.ProcessDeleted | N6DataPipeline/n6datapipeline/comparator.py:129-148 | the loop that deletes and unflags while it walks over a copy does what the value function says |
| ComparatorObjects.SourceData.ClearFlags | N6DataPipeline/n6datapipeline/comparator.py:150-154 | exactly the entries flagged by the series lose their flag |
| ComparatorProcess.Comparator.ProcessInput | N6DataPipeline/n6datapipeline/comparator.py:378-460 | the method that connects the objects (validity, counting, the timeout, the event, finalization) changes them, publishes and fails exactly as the value function says |
| ComparatorProcess.Comparator.OnSeriesTimeout | N6DataPipeline/n6datapipeline/comparator.py:363-370 | a timer that goes off clears the series' flags and closes it, as the value function says |
| Recording.Recorder.InputCallback | N6DataPipeline/n6datapipeline/recorder.py:562-725 | each handler updates the table as its type says, and publishes as recorded exactly what got rows of its own |
| Recording.AddressesNeverChange | N6DataPipeline/n6datapipeline/recorder.py:562-725 | whatever is replayed, no id that is known ever loses its row or gets other addresses |
| ComparatorRecorder.StepMirrored | N6DataPipeline/n6datapipeline/recorder.py:562-725 | replaying what one comparator step publishes keeps the active rows equal to the blacklists |
| ComparatorRecorder.DeletedMirrored | N6DataPipeline/n6datapipeline/comparator.py:129-148 | after a finalization the removed entries' rows are delisted if they were not seen and expired if they were |
| ComparatorRecorder.TableEqualsBlacklists | N6DataPipeline/n6datapipeline/recorder.py:562-725 | from the empty start, after any run with fresh ids, series overlapping, failing or timing out, the active ids, their expiry times and their addresses are exactly those on the blacklists |
| ComparatorRecorder.ReplacedForGood | N6DataPipeline/n6datapipeline/comparator.py:112-117 | once a message has brought other addresses for a key, the former id's row is replaced for good, whatever comes later, with the addresses it always had |
| BlacklistArchive.BlackListCompacter.Start | N6DataPipeline/n6datapipeline/archive_raw.py:886-926 | whatever the class-level `init` was, the stored document has the marker, link and difference that the current chain calls for |
| BlacklistArchive.BlackListCompacter.GenerateOrigFile | N6DataPipeline/n6datapipeline/archive_raw.py:804-884 | patching the recovery file in place gives the fold of all patches, and the last document's id is remembered |
| BlacklistArchive.CurrentChain | N6DataPipeline/n6datapipeline/archive_raw.py:749-774 | the two queries give exactly the chain of the last document |
| BlacklistArchive.LatestInitExactly | N6DataPipeline/n6datapipeline/archive_raw.py:757-764 | whatever the order of the archive, the first query finds a document with marker 0 if there is one, and none of those was received later |
| BlacklistArchive.SinceExactly | N6DataPipeline/n6datapipeline/archive_raw.py:766-771 | whatever the order of the archive, the second query gives exactly the documents received no earlier than the date, each as often as it is there, in the order of receiving |
| BlacklistArchive.StoringKeepsRecoverable | N6DataPipeline/n6datapipeline/archive_raw.py:776-926 | storing one more payload keeps every earlier one recoverable from its chain and makes the new one recoverable |
| BlacklistArchive.StoredExactly | N6DataPipeline/n6datapipeline/archive_raw.py:776-926 | for any history with strictly increasing `received`, a chain begins with every (period + 1)-st payload, stored as a whole, and every other payload is stored as the difference to the one before |
| BlacklistArchive.EveryPayloadIsRecoverable | N6DataPipeline/n6datapipeline/archive_raw.py:749-926 | for any history with strictly increasing `received` the current chain rebuilds the last payload, every payload is recoverable, and no chain exceeds period + 1 documents |
| Notifier.GetPreviousBusinessDay | N6DataPipeline/n6datapipeline/notifier.py:143-147 | the search ends at the latest business day before the given one |
| Notifier.BusinessDayExactly | N6DataPipeline/n6datapipeline/notifier.py:256-262 | business days are the days from Monday to Friday that are not configured as days off |
| Notifier.NotifyClient | N6DataPipeline/n6datapipeline/notifier.py:129-141 | the backward search ends, and is True if and only if some slot of today or of an earlier business day lies after the last message and not after now |
| Notifier.SlotExactly | N6DataPipeline/n6datapipeline/notifier.py:129-135 | a slot is that second of that day, of 86400 seconds |
| Notifier.TellsExactlyWhatGrew | N6DataPipeline/n6datapipeline/notifier.py:149-173 | there is something to tell if and only if some category is new or has grown; what is told brings every counter told to its present value |
| Notifier.RecordsExactly | N6DataPipeline/n6datapipeline/notifier.py:113-118 | only a recorded message changes what is recorded; then nothing is left to tell, and counters missing this time stay recorded |
| Notifier.EverythingIsReported | N6DataPipeline/n6datapipeline/notifier.py:83-173 | with counters that do not fall, what the messages tell one address over any runs adds up to what the counters gained up to the last recorded message, plus what failed messages told it in vain |
| Notifier.EverythingIsReportedOnce | N6DataPipeline/n6datapipeline/notifier.py:94-117 | an address is told everything exactly once if and only if no message that failed after reaching it had something new to tell |

## Left out

* Killing a process while it holds locks: the order in which its descriptors are closed is not part of the synchronizer's model.
* Exceptions inside the final release of the locks (`_release_all_locks()`), and the forcible clean-up in `__enter__()` of an object that was not exited properly: exceptions at every line before the release are modelled, and an exception while the metadata file is removed.
* Real time in the synchronizer: sleeps and fairness of the locks are not modelled, so `TwoProcessesCanAlwaysFinish` says that some run ends, not that every fair one does.
* Signatures and ages of the pickle files: reading them succeeds or fails as an input of the decision.
- PrefetchSynchronizer.ReadersSeeConsistentFiles: excludes runs in which unlinking the metadata file has failed, because the code then lets the old metadata stay.
* Floating point: times, durations and tolerances of `PrefetchDecision` are real numbers.
* The legacy format of the aggregator's data file (`shall_shrink` false) and the pickling itself; a payload is a byte sequence with its format prefix.
* A second exception while the aggregator unwinds from a first one, and the temporary files it may then leave.
- AggregatorHistories.RunAgrees: a history goes on after a rewrite struck between the two renames only if no unwanted payload precedes a wanted one, because otherwise the files need not fit together (`AggregatorState.MixedPairFitsExactly`).
* The `last_active` clean-up timer of the aggregator, which looks at real time only to choose when `generate_suppressed_events_after_inactive()` is called; a run may call it at any moment.
* The timeout of `join()` in the pusher is an input of its step: the indicator loop may give up at any check it is allowed to.
* AMQP connections, their locks, and what `_handle_data` and `_handle_error` do with an item.
- CondOptimizing.Factor: the choice among shared subconditions (by number of parents and first occurrence) is left open; the results hold for every choice.
* Order inside `OPSet`s: subconditions are sets, as the equality of conditions treats them; `ContainsSubstringCond`, which the SQL converter refuses, and the legacy condition builders.
* Column values are integers: only equality and order are used; types and collations of the database are not modelled.
* `_get_access_info...` details besides conditions: resource limits, anonymized source ids, and the predicates of the stream API.
* URL patterns of the inside criteria, which depend on the regular expression engine.
* Sorting inside one border of the sweep: the result is proved for the endpoints in any order.
* The dictionary of the comparator's sources: `ComparatorProcess.Comparator` is given the object of the message's source; and the refusal of messages without blacklist headers, before any state is touched.
* Series numbers and totals are integers, as in JSON numbers; texts in their place would be compared as texts by the code.
* Rows of one event in the recorder's table share an id, status and expiry time and are one row of the model, which holds their addresses as a multiset; clients and `modified` are left out, and a known id always collides on insertion.
- ComparatorRecorder.TableEqualsBlacklists: supposes ids unknown to the table for new and changed entries and no database failure, because an id used twice is refused by the table and lost.
- ComparisonRuns.FinalizationKeepsWhatWasBrought: supposes one open series per source, because entries flagged by another series of the source would stay as well; `Comparison.DeletedHas` and `ComparisonSeries.SeriesLeaves` say what holds without that.
* Failing writes of the comparator's state, which the code logs and ignores: a crash finds the blacklists of the last finalization, timeout or stop.
- ComparisonSeries.SeriesLeaves: supposes that nothing else comes for the source or the series in between.
* The `generate_all_file` mode of the archive; `diff` and `patch` are any two functions of which patching undoes differencing, and the first patch of an empty file by an empty file, which changes nothing, is not modelled as a call.
- BlacklistArchive.EveryPayloadIsRecoverable: supposes strictly increasing `received`, because the queries select and order the chain by it.
* Templates, SMTP and Redis of the notifier; the end of the calendar: an earlier business day is supposed to exist before any day.
* Administration panel, portal and API clients, configuration parsing, collectors and parsers.
