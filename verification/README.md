# Proofs about the model server's serving core

This project models the part of the model server that decides which versions of a model are
served, protects a model from being unloaded while a request uses it, and hands out infer
requests, and proves what that part promises. `dafny verify dfyconfig.toml` checks everything.

## What is modelled

**The infer-request queue** (`src/queue.hpp`, `src/executingstreamidguard.cpp`) is modelled twice.
`StreamQueue.Queue` is the circular buffer as a class whose calls do not overlap; it is proved to
refine `FifoPool.Pool`, a pair of queues. `StreamQueueSteps` is the same code at the granularity of
single accesses: every lock, test, read, write, push, compare-exchange, unlock and promise is its
own step of one of any number of threads (`Next` and the `...After` functions beside it follow
src/queue.hpp:39-93 and src/executingstreamidguard.cpp:23-44 line by line). A compare-exchange may
fail spuriously. `StreamQueueSafety` proves an inductive invariant, `StreamQueueTheorems` draws the
consequences, `StreamQueueCalls` follows a single call to its end, and `StreamQueueStranded` shows a
run in which the queue loses a wake-up: `getIdleStream` tests `streams[front_idx]` before it takes
`queue_mutex`, and an id returned in between is stored in the buffer while the promise is pushed.
The request then waits in front of an idle stream until another request comes and returns one.
`NoWaiterBehindIdleIffNoStalePush` says exactly when this does not happen.

**The unload guard** (`src/modelinstance.cpp`) is a state machine over request threads
(`waitForLoaded`, `infer`, the dynamic reload) and loader threads (`loadModel`, `reloadModel`,
`retireModel`, `cleanupFailedLoad`), one shared access a step, for any number of threads and any
interleaving. What a thread does under `loadingMutex` is a script of operations; `Needs` computes
what a script demands of its surroundings. Loading and validation outcomes are chosen by the
environment at every step. The infer-request pool is part of the state, with atomic calls, so that
pool integrity and the progress of a drain are consequences of both protocols together. A drain
ends: unless new threads keep coming, every schedule of the other threads is bounded, and when they
cannot go on the draining thread can. `UnloadGuardRequests` follows a request through every
execution, from `waitForLoaded` to its inference, and `UnloadGuardJobs` a call that takes
`loadingMutex`, through failures, retries and recovery to the state in which it lets go. `loadModel`
does not drain; every theorem assumes that it is only called on an instance in state START, and
`UnloadGuardLoads` says exactly when a call can come to rebuild the model under a guard.
`UnloadGuardRevival` says exactly when a retired instance can become available again.
`StrandedDrain` puts the queue of `StreamQueueSteps` under a guard: every state of the queue is
reached there, and a drain that waits for a stranded request never ends.

**Version reconciliation** (`src/modelmanager.cpp`, `src/model.cpp`, the version policies,
`src/modelconfig.cpp`) follows the imperative code: `Model` is a class over a map of instances,
`ModelManager` holds the start loop, the reload step and the final recomputation. The effect of a
call is a `Plan` (what was started, reloaded, retired and cleaned up, and what the last round of the
start loop started). The outcome of loading a version is a function on versions, fixed for one call.
`ReconciliationSteps.FollowsSteps` says which plan a call produces, step by step and for available
versions in any order: the started versions are the concatenation of the `Rounds` of the start loop,
each the whole batch of its moment, and `PlanUnique` shows that there is only one such plan.
`Reconciliation` describes the outcome for ascending lists in closed form, from the model, the set
of available versions and the outcomes of loading (`Usable`, `Tried`, `FirstChoice`, `LastChoice`,
`Goal`), and proves what is served. `DirectoryOrder` says exactly when a model without versions
falls back on loadable versions if the list is in any order, `FailureReports` which failures the
result of such a call reports, `DefaultVersion` which default version a call leaves and when it is
the right one, and `RepeatedCalls` what further calls change. `ServedVersions` states what a call
serves in terms of its arguments alone. What depends on failed versions being erased from the list
is stated for ascending lists or with the exact condition on the list; the steps, idempotence and
repeated calls, the default version and the reports are stated for every list without duplicates.

**Smaller pieces**: the layout algebra of `src/layout.cpp`, the two-timer schedule of
`cleanerRoutine`, the overflow-checked tensor size.

## Where the code does not do what one might expect

- A request can wait although a stream is idle, until another request enters the queue
  (`StreamQueueStranded.WaiterCanBeStranded`, `StreamQueueStranded.NextRequestFreesWaiter`). If the
  model is closed for a drain before that, the drain waits for the request's guard for ever
  (`StrandedDrain.DrainCanWaitForEver`).
- A retired version can become available again although the model manager does not load it: a request
  that has dropped its guard for a dynamic reload takes the mutex after the retirement and loads the
  model (`UnloadGuardRevival.RetiredCanComeBack`). This happens only if a request is on its way at that
  moment, and then it can (`UnloadGuardRevival.RetiredComesBackExactly`).
- `updateDefaultVersion` takes an `int`: while a version of 2^31 or more is unloaded, it is not
  ignored and stays the default version, or the version that its low bits name is ignored in its
  place. `Model.IgnoredExactlyWhenNarrow` says exactly when the default is wrong.
- A failed *start* is replaced by another selected version in the same call
  (`Reconciliation.FallsBack`), but a second equal call can undo this. Failed versions are registered,
  so they are selected and reloaded again, and the version served in their place is retired. With
  latest(1) it stays served exactly if at most one available version is greater, which is not
  blacklisted (`RepeatedCalls.LatestOneStaysServedExactly`); `RepeatedCalls.StaysServedExactly` has the
  condition for every policy. From the second call on nothing changes any more
  (`RepeatedCalls.SecondCallIsFinal`).
- A version whose *reload* fails is not replaced by one that is not served already: the policy chooses
  again, but nothing is started or reloaded afterwards, in this call or in any later one
  (`Reconciliation.GoalServedExactly`, `RepeatedCalls.FailedReloadIsNotReplaced`,
  `RepeatedCalls.NeverReplaced`).
- Failed versions are looked up by binary search in a list that is in the order of directory names
  (src/modelmanager.cpp:1338, src/modelmanager.cpp:1469). The search finds every version of the list
  if and only if the list is ascending (`VersionSearch.AllFoundExactlyAscending`); with directories
  "10" and "9" it is not. With latest(1) the greatest loadable version is served if and only if every
  greater one is found once it is the greatest left (`DirectoryOrder.GreatestServedExactly`), with
  latest(k) and at least k loadable versions the k greatest of them if and only if one comes down the
  list in this way (`DirectoryOrder.LatestFallsBackExactly`). The policies all and specific always fall
  back (`DirectoryOrder.AllAndSpecificFallBack`).
- A start that fails and is made up for by a later round is not reported
  (`FailureReports.MadeUpForIsNotReported`). On a model without versions, latest(1) reports a failure if
  and only if there are versions and none gets served (`FailureReports.LatestOneReportsExactly`, and
  `FailureReports.LatestOneReportsByList` in terms of the directory), latest(k) with at least k loadable
  versions if and only if one does not come down the list (`FailureReports.LatestReportsExactly`), and
  all and specific report every failure (`FailureReports.AllAndSpecificReport`).
- A default version that was right can be wrong after a call. The default is computed after every
  reload that succeeds, not after one that fails. With directories "10" and "9", policy all and a changed
  configuration, 9 is reloaded while 10 is still available, then the reload of 10 fails; 10 is not found
  in the list and not cleaned up, and stays the default although only 9 is served
  (`DefaultVersion.DefaultLeftBehind`), also in further calls (`DefaultVersion.StaysLeftBehind`).
  `DefaultVersion.DefaultRightExactly` has the exact condition; on ascending lists it always holds.
- The intersection of two layouts copies the batch index of the left one. It is never wrong, but it
  can be missing (`Layout.CopiedIndexExactly`, `Layout.IntersectionOfConstructed`).
- With a resources interval of 0 the cleaner thread does not wait at all and every round runs every
  cleaner (`Cleaner.CleanerRoutine`).

## Model

| member | source | states |
|---|---|---|
| UnloadGuardTheorems.GuardKeepsModel | src/modelinstance.cpp:1048-1131 | in every state of every run, while a request holds a guard the model and its pool are completely built and no thread is past its drain loop |
| UnloadGuardTheorems.ModelStableWhileGuarded | src/modelinstance.cpp:989-1016 | from the moment a thread has its guard until it drops it, neither the loaded shape, the number of streams nor the load epoch changes |
| UnloadGuardTheorems.InferenceSeesItsShape | src/modelinstance.cpp:1200-1227 | a running inference finds the model built for the shape its request was validated for or reloaded the model to, on a stream that no other thread holds; that requests come to infer is stated by the `UnloadGuardRequests` rows |
| UnloadGuardTheorems.ReloadOutcome | src/modelinstance.cpp:1007-1015 | a dynamic reload releases the mutex either with a guard on an available model of the requested shape or without any guard; which of the two it is, `UnloadGuardJobs.DynamicReloadEnds` says |
| UnloadGuardRequests.GivesUpExactly | src/modelinstance.cpp:1048-1090 | in every execution waitForLoaded gives up after all its checks, or at once when it finds the instance unloading or ended after a check other than the first; it looks for that after every such check, and hands out a guard only if a check found the instance available |
| UnloadGuardRequests.AdmittedIfAvailable | src/modelinstance.cpp:1048-1057 | a check gives the request its guard if and only if it finds the instance available |
| UnloadGuardRequests.GetsThroughByInference | src/modelinstance.cpp:1200-1230 | in every execution a request that nothing rejects is let through only after it has inferred |
| UnloadGuardRequests.RejectedNeverInfers | src/modelinstance.cpp:1211-1225 | a request that is rejected by its validation, or while it is prepared, takes no stream and only drops its guard |
| UnloadGuardRequests.InfersAsAsked | src/modelinstance.cpp:1211-1230 | a request whose validation asks for another shape is inferred on a model built for this shape, if at all |
| UnloadGuardRequests.AcceptedCanInfer | src/modelinstance.cpp:1200-1230 | from every state in which a request holds its guard before validation, some continuation in which requests are accepted lets it infer on the loaded model, also when all streams are taken |
| UnloadGuardRequests.RequestCanGetThrough | src/modelinstance.cpp:1048-1230 | from every state with an available instance an arriving request can be admitted, infer on the loaded model and get through |
| UnloadGuardJobs.CallEnds | src/modelinstance.cpp:931-959 | in every execution, when loadModel or reloadModel lets go of the mutex without a failure, the model is available with its shape, configuration and pool; a retirement has ended and unloaded it, a cleanup has unloaded it and marked it as failed; after a failure it is marked as failed |
| UnloadGuardJobs.DynamicReloadEnds | src/modelinstance.cpp:989-1016 | in every execution a dynamic reload keeps a guard on the requested shape if and only if its first or its full reload did not fail; otherwise the model is back at the configured shape, or marked as failed if the recovery failed as well |
| UnloadGuardJobs.ChangedLoaderUnloads | src/modelinstance.cpp:945-959 | between checking the loader and building the model a reload has unloaded everything if the custom loader has changed, and nothing otherwise |
| UnloadGuardJobs.PendingExactly | src/modelinstance.cpp:953-957 | the custom loader counts as changed if and only if it has changed since the last reload that checked it |
| UnloadGuardJobs.PoolAsAsked | src/modelinstance.cpp:634-644 | every pool has the size that was asked for when it was built, at least 1 and at most 100000 |
| UnloadGuardJobs.FailedBuildIsPartial | src/modelinstance.cpp:842-898 | a call of the manager that fails to build the model leaves it half built until it lets go of the mutex |
| UnloadGuardTheorems.PoolWholeWhenChanged | src/modelinstance.cpp:816-821 | when the pool is reset or replaced, all its ids are idle and no request waits |
| UnloadGuardTheorems.HandleHolderCanMove | src/modelinstance.cpp:1117-1123 | unless the handle counter is zero, some thread that counts in it can move whatever the environment decides |
| UnloadGuardTheorems.StreamHolder | src/modelinstance.cpp:634-644 | a request waits for a stream only while another one holds a stream |
| UnloadGuardTheorems.SomeoneCanMove | src/modelinstance.cpp:990-994 | no deadlock: while a thread is not finished, some thread can move |
| UnloadGuardTheorems.HolderStepReducesWork | src/modelinstance.cpp:1048-1057 | while no request is admitted, every step of a handle holder reduces the total work left |
| UnloadGuardTheorems.OtherStepReducesWork | src/modelinstance.cpp:1048-1090 | while a thread drains, every step of any other thread, also in waitForLoaded, reduces the total work left |
| UnloadGuardTheorems.OthersRunOut | src/modelinstance.cpp:1117-1123 | without new threads the others can take at most that many steps before the draining thread moves, and it goes on draining |
| UnloadGuardTheorems.DrainEnds | src/modelinstance.cpp:1117-1123 | without new threads no schedule postpones the end of a drain for ever: when none of the others can move, the counter is zero and the draining thread goes on |
| UnloadGuardTheorems.DrainCanEnd | src/modelinstance.cpp:1117-1123 | from every state with a draining thread the handle holders alone can bring the counter to zero and the drain to its end |
| UnloadGuardTheorems.ExecutionKeepsInv | src/modelinstance.cpp:945-1131 | every state of every execution satisfies the invariant |
| UnloadGuardLoads.LoadModelNeedsQuiet | src/modelinstance.cpp:931-943 | from a reachable state in which loadModel is about to take the mutex, some continuation reaches the rebuilding of the model under a held guard if and only if the instance is available or a guard is held |
| UnloadGuardLoads.LoadModelUnderGuard | src/modelinstance.cpp:931-943 | called while a guard is held, loadModel can come to rebuild the model under that guard |
| UnloadGuardRevival.RetiredComesBackExactly | src/modelinstance.cpp:989-1016 | a retired instance can become available again without a call of the model manager to load it if and only if some request is between dropping its guard and locking the mutex for a dynamic reload |
| UnloadGuardRevival.RetiredCanComeBack | src/modelinstance.cpp:989-1016 | some run from a new instance retires the model in this situation and makes it available again |
| UnloadGuardSafety.StepKeepsInv | src/modelinstance.cpp:842-910 | every step of every thread keeps the invariant if loadModel starts on a quiet instance |
| UnloadGuardSafety.StepKeepsCounted | src/modelinstanceunloadguard.cpp:21-28 | the handle counter is the number of threads between increment and decrement |
| UnloadGuardSafety.JobFacts | src/modelinstance.cpp:1092-1115 | every loader call makes the model available only as its last operation, drains before it changes anything (loadModel excepted), and, if nothing fails, loadModel, reloadModel and the dynamic reload deliver the shape they were asked for |
| UnloadGuardSafety.IdsConserved | src/modelinstance.cpp:1227-1230 | within the protocol every stream id is idle or held by exactly one request |
| StreamQueueTheorems.RunKeepsInv | src/queue.hpp:39-93 | every state of every interleaving of any number of threads satisfies the invariant of the queue |
| StreamQueueTheorems.EveryIdInOnePlace | src/queue.hpp:39-93 | every id is in a slot or with a thread, never both |
| StreamQueueTheorems.CarriersDiffer | src/queue.hpp:39-56 | two threads never carry the same id |
| StreamQueueTheorems.SlotsDiffer | src/queue.hpp:76-93 | two slots never hold the same id |
| StreamQueueTheorems.QuietQueueIsWhole | src/queue.hpp:98-105 | with no thread inside, all ids are idle, the window is the whole buffer and no promise is pending |
| StreamQueueTheorems.OnlyWaitersBlock | src/queue.hpp:44-47 | the two locks, taken in this order, do not deadlock: unless a thread waits for its promise, some thread inside can move |
| StreamQueueTheorems.StepRefinesPool | src/queue.hpp:39-93 | every step is invisible or is one operation of the first-in-first-out pool with the same result; a push agrees with the pool exactly when it is not stale |
| StreamQueueTheorems.NoWaiterBehindIdleIffNoStalePush | src/queue.hpp:45-47 | in a run nobody ever waits while an id is idle if and only if no promise is pushed while the front slot is filled |
| StreamQueueTheorems.GaugesBounded | src/executingstreamidguard.cpp:23-44 | at most n inferences are active, and at most as many as there are current requests |
| StreamQueueCalls.CallEnds | src/queue.hpp:39-93 | in every run a call that has left the queue under a guard has inferred, has pushed a promise if and only if it found the front slot empty, and otherwise has taken the id from the slot; a try has taken an id if and only if it found the slot filled |
| StreamQueueSafety.StepKeepsInv | src/queue.hpp:39-93 | conservation of ids, the circular window, the promises, the locks and the gauges survive every step |
| StreamQueueSafety.StepKeepsWindowed | src/queue.hpp:86-92 | the idle ids stay in one circular window from front_idx to back_idx |
| StreamQueueSafety.StepKeepsConserved | src/queue.hpp:39-93 | the number of slots plus threads with an id stays 1 for every id |
| StreamQueueSafety.StepKeepsPromised | src/queue.hpp:79-85 | every promise is in the queue or with the one thread that popped it |
| StreamQueueSafety.SlotFree | src/queue.hpp:92-92 | returnStream never overwrites an idle slot |
| StreamQueueStranded.WaiterCanBeStranded | src/queue.hpp:45-47 | a run with one stream and two requests ends with the stream idle and a request waiting for it, and in every continuation in which nobody enters this stays so |
| StreamQueueStranded.WaitsUntilEntry | src/queue.hpp:79-85 | once everybody inside waits, nothing changes until a thread enters: the waiting ones go on waiting and what is idle stays idle |
| StreamQueueStranded.NextRequestFreesWaiter | src/queue.hpp:79-85 | the next request can take the idle stream and, returning it, hand it to the stranded one |
| StrandedDrain.ReachedUnderGuard | src/modelinstance.cpp:1200-1227 | every state of the queue is reached by requests that enter it only under a guard and leave it before they drop the guard |
| StrandedDrain.DrainCanWaitForEver | src/modelinstance.cpp:1117-1123 | in some run the instance is closed while a request is stranded, and in every continuation the handle counter stays positive and the drain does not end |
| StreamQueue.Queue.constructor | src/queue.hpp:98-105 | a new queue is the pool of the ids 0 to n-1 |
| StreamQueue.Queue.GetIdleStream | src/queue.hpp:39-56 | gives out the oldest idle id, which nobody holds, or queues the ticket behind the others |
| StreamQueue.Queue.TryToGetIdleStream | src/queue.hpp:58-71 | the same, but fails exactly when nothing is idle and then changes nothing |
| StreamQueue.Queue.ReturnStream | src/queue.hpp:76-93 | the id goes to the longest waiting ticket, or behind the idle ids |
| FifoPool.FirstComeFirstServed | src/queue.hpp:39-93 | for every sequence of calls tickets are served in arrival order, ids are issued in the order 0 to n-1 and then of their return, and nobody waits while an id is idle |
| Model.ModelInstance.LoadModelImpl | src/modelinstance.cpp:842-910 | stores the configuration and ends AVAILABLE or LOADING with an error |
| Model.ModelInstance.LoadModel | src/modelinstance.cpp:931-943 | a load from START ends as loadModelImpl does |
| Model.ModelInstance.ReloadModel | src/modelinstance.cpp:945-959 | a reload ends as loadModelImpl does, also from END |
| Model.ModelInstance.RetireModel | src/modelinstance.cpp:1092-1103 | a permanent retire ends in END, a temporary one in LOADING without an error |
| Model.ModelInstance.CleanupFailedLoad | src/modelinstance.cpp:1105-1109 | marks the version so that isFailedLoading holds |
| Model.Model.UpdateDefaultVersion | src/model.cpp:86-102 | the default becomes the greatest available version other than the narrowed ignored one, or 0 |
| Model.Model.AddVersion | src/model.cpp:127-141 | registers and loads one version and keeps a correct default correct |
| Model.Model.AddVersions | src/model.cpp:143-163 | every listed version is registered and attempted in this order, the failed ones are listed in order; the default is right if one loads and stays otherwise |
| Model.FailedStartsKeepDefault | src/model.cpp:143-163 | so starts keep a correct default correct |
| Model.Model.ReloadVersions | src/model.cpp:249-288 | exactly the listed registered versions are reloaded; failures are appended to the list; the default is the one computed at the last reload that succeeded |
| Model.ReloadsKeepDefault | src/model.cpp:249-288 | if all of them succeed, a correct default stays correct |
| Model.Model.RetireVersions | src/model.cpp:165-185 | exactly the listed versions end; at every unload the default names an available version that was not unloaded, or none |
| Model.Model.CleanupFailedLoad | src/model.cpp:187-207 | exactly the listed versions are marked as failed, and the default is correct afterwards |
| Model.Model.RetireAllVersions | src/model.cpp:209-227 | every version ends and there is no default version |
| Model.RetiredDefault | src/model.cpp:181-182 | choosing the default before the unload gives the right default for afterwards |
| Model.IgnoredExactlyWhenNarrow | src/model.cpp:86-90 | the default chosen before an unload is right afterwards if and only if the version fits in an int, or there was no default, or it was neither this version nor the one that the narrowed number names |
| ModelConfig.IsMapEqual | src/modelconfig.cpp:173-185 | equal sizes and an inclusion loop decide map equality |
| ModelConfig.IsCustomLoaderConfigChanged | src/modelconfig.cpp:144-156 | tells whether the loader options differ |
| ModelConfig.IsLayoutConfigurationEqual | src/modelconfig.cpp:168-186 | tells whether all layouts are equal |
| ModelConfig.IsBatchSizeConfigurationEqual | src/modelconfig.cpp:158-166 | tells whether the optional batch sizes are equal |
| ModelConfig.IsReloadRequired | src/modelconfig.cpp:82-142 | a reload is required if and only if the two configurations differ in anything but the version and the cache directory |
| ModelConfig.ReloadRequiredExactly | src/modelconfig.cpp:82-142 | with equal version and cache directory a reload is required if and only if the configurations differ, and other versions and cache directories never change the answer |
| VersionPolicy.MakeSpecific | src/model_version_policy.hpp:93-96 | the specific policy holds its versions in order |
| VersionPolicy.Filter | src/model_version_policy.cpp:35-45 | returns each selected version once: with all the whole list, with specific what is both available and listed, with latest(k) what has fewer than k greater available ones |
| VersionPolicy.SelectedExactly | src/model_version_policy.cpp:35-61 | what each of the three policies selects, in terms of the available and the listed versions |
| VersionPolicy.FilterLatest | src/model_version_policy.cpp:54-61 | the first k of the descending list are exactly the versions with fewer than k greater ones |
| VersionPolicy.LatestAreGreatest | src/model_version_policy.cpp:54-61 | these are k versions, or all if there are fewer, and no other version is greater than one of them |
| Versions.SortAscends | src/modelmanager.cpp:1177-1177 | sorting a list without duplicates gives the ascending list of the same versions |
| Versions.IntersectionExact | src/modelmanager.cpp:1206-1211 | merging an ascending and a sorted list gives the common elements in ascending order |
| Versions.DifferenceExact | src/modelmanager.cpp:1229-1234 | merging two ascending lists gives the elements of the first alone in ascending order |
| VersionSearch.BinarySearch | src/modelmanager.cpp:1469-1469 | finds what the halving search of the standard library finds, for any list |
| VersionSearch.FindsExactly | src/modelmanager.cpp:1490-1490 | in an ascending list the search finds exactly the members |
| VersionSearch.AllFoundExactlyAscending | src/modelmanager.cpp:1469-1469 | in a list without duplicates the search finds every member if and only if the list is ascending |
| VersionSearch.NotFoundInNameOrder | src/modelmanager.cpp:1338-1338 | of two versions the first is found if and only if it is not greater than the second |
| VersionSearch.EraseAllFacts | src/modelmanager.cpp:1467-1474 | erasing found versions removes only failed ones, and from an ascending list exactly these |
| VersionChange.EraseBlacklisted | src/modelmanager.cpp:1193-1202 | removes exactly the registered blacklisted versions |
| VersionChange.GetVersionsToChange | src/modelmanager.cpp:1170-1256 | the three lists are ascending; asked for are the requested versions without the registered ones that a found custom loader blacklists; missing ones are started, registered ones that have ended, failed or been loaded with another configuration are reloaded, and what is registered, not asked for and not ending is retired |
| VersionChange.ChangeExactly | src/modelmanager.cpp:1177-1244 | the contents of the three lists in terms of the requested list, the blacklist, and the status and configuration of each instance |
| VersionChange.ChangeUnique | src/modelmanager.cpp:1170-1256 | what the lists hold determines them |
| ModelManager.Admission | src/modelmanager.cpp:1399-1426 | the checks all pass exactly for compatible configurations, and each refusal has its own condition, the earlier check winning |
| ModelManager.EraseFailed | src/modelmanager.cpp:1488-1494 | erases, one by one, the failed versions that the search finds |
| ModelManager.StartRound | src/modelmanager.cpp:1464-1476 | one round starts its whole batch and, after a failure, erases what is found of the failed versions and computes the change for what is left |
| ModelManager.StartVersions | src/modelmanager.cpp:1463-1480 | the loop ends for every list without duplicates; what it started are exactly the rounds that the model, the directory and the outcomes of loading determine; the reload list is exact, the default is right if a start succeeded and stays otherwise, and the result tells whether the last whole batch was loaded |
| ModelManager.ReloadStep | src/modelmanager.cpp:1482-1487 | reloads the list, adds its failures, and leaves the default computed at the last reload that succeeded |
| ModelManager.SplitToRetire | src/modelmanager.cpp:1495-1500 | of what is registered, not wanted and not ending already, the two lists are those that failed in this call and the others, both ascending |
| ModelManager.RetireAndCleanUp | src/modelmanager.cpp:1501-1518 | exactly the listed versions are unloaded, then exactly the listed failed ones are cleaned up; if the versions fit in an int, no unload meets the default version, and the default is right afterwards if anything was unloaded or cleaned up and stays otherwise |
| ModelManager.Finish | src/modelmanager.cpp:1495-1518 | what is registered, not wanted and not ending already is retired, or cleaned up if it failed in this call; if there was anything, the default is right |
| ModelManager.Conclude | src/modelmanager.cpp:1488-1518 | the failed versions are erased, the change is computed again, and the plan follows the steps of a call |
| ModelManager.Reconcile | src/modelmanager.cpp:1434-1525 | the plan is the one that the steps determine; exactly its actions happen, in the order starts, reloads, unloads, cleanups; the default version is exactly the one that these actions leave, on ascending lists the right one if it was right; the status is OK exactly for an up-to-date model and LOAD_FAILED exactly if the last starts or a reload failed |
| DefaultVersion.DefaultRightExactly | src/model.cpp:249-288 | a right default is right after a call if and only if something was unloaded or cleaned up, or the greatest available version at the last reload that succeeded is not one whose reload failed |
| DefaultVersion.DefaultKeptAscending | src/modelmanager.cpp:1434-1518 | on ascending lists a right default stays right |
| DefaultVersion.DefaultLeftBehind | src/model.cpp:249-288 | with directories "10" and "9", policy all and both versions outdated, if only 9 can be loaded then 10 stays the default although only 9 is served |
| DefaultVersion.StaysLeftBehind | src/model.cpp:249-288 | another call with the same outcomes leaves the model and the default as they are |
| FailureReports.AllAndSpecificReport | src/modelmanager.cpp:1463-1480 | with all and specific a call on a model without versions reports a failure exactly if a selected version fails |
| FailureReports.LatestReportsExactly | src/modelmanager.cpp:1463-1487 | with latest(k) and at least k loadable versions it does so exactly if one does not come down the list |
| FailureReports.LatestOneReportsExactly | src/modelmanager.cpp:1463-1487 | with latest(1) it does so exactly if there are versions and none is served |
| FailureReports.LatestOneReportsByList | src/modelmanager.cpp:1463-1487 | in terms of the directory: exactly if it is not empty and no version that loads has only failing and found versions above it |
| FailureReports.MadeUpForIsNotReported | src/modelmanager.cpp:1463-1480 | of two versions the greater fails and the other is served in its place: the result is OK_RELOADED |
| ReconciliationSteps.RoundDone | src/modelmanager.cpp:1463-1476 | a round adds its batch to the rounds done so far; the loop ends with it if everything loaded, and otherwise goes on with the failed versions that were found erased |
| ReconciliationSteps.RoundsDone | src/modelmanager.cpp:1463-1480 | when the start loop ends, what it started was available and not registered, every started version that loads is selected of what is left, and everything selected is registered |
| ReconciliationSteps.StartedWasSelected | src/modelmanager.cpp:1463-1476 | a version is started only if the policy would select it beside any available versions that are registered or can be loaded |
| ReconciliationSteps.PlanUnique | src/modelmanager.cpp:1434-1518 | the model, the directory and the outcomes of loading determine everything that a call does and the order in which it starts versions |
| ReconciliationSteps.AllStarted | src/modelmanager.cpp:1477-1479 | leaving the loop after a successful round, the lists computed before it are still exact |
| ReconciliationSteps.NothingDone | src/modelmanager.cpp:1457-1461 | a call on an up-to-date model changes nothing |
| ModelManager.ReloadModelWithVersions | src/modelmanager.cpp:1396-1525 | refusals and an unreadable directory change nothing; with custom loader options and no loader every version is retired; otherwise, and always without such options, the model is reconciled: an empty model comes to serve the loadable versions that the policy names, and blacklisted ones are not served |
| ServedVersions.FirstCallServes | src/modelmanager.cpp:1434-1518 | a call on a model without versions and an ascending directory serves exactly the loadable versions that the policy names, with latest(k) those with fewer than k greater loadable ones, without what a found custom loader blacklists |
| ServedVersions.FirstCallConfigures | src/model.cpp:127-163 | in such a call every version gets the requested configuration under its own number |
| ServedVersions.FirstCallServesInAnyOrder | src/modelmanager.cpp:1434-1518 | with all and specific the order of the directory does not matter |
| ServedVersions.ServedWithoutFailures | src/modelmanager.cpp:1434-1518 | on any model and in any order, a call without failures leaves exactly what the policy names of the directory served, without what is blacklisted |
| ServedVersions.ServedWithConfig | src/modelmanager.cpp:1213-1218 | and every served version has the requested configuration, but for version and cache directory |
| ServedVersions.ReloadedIfNeeded | src/modelmanager.cpp:1213-1218 | only versions that have ended, failed or been loaded with another configuration are reloaded, and no blacklisted one |
| ServedVersions.BlacklistedNotServed | src/modelmanager.cpp:1193-1202 | whatever fails and in whatever order the directory is listed, no blacklisted version is served after a call |
| Reconciliation.AscendingFollows | src/modelmanager.cpp:1434-1518 | on an ascending list a call starts exactly the new versions selected beside the usable ones, reloads exactly what of the first choice needs it, retires exactly what is not wanted, and cleans up exactly what failed |
| Reconciliation.OutcomeUnique | src/modelmanager.cpp:1434-1518 | the closed form determines the state of every version after a call |
| Reconciliation.OnlyGoalServed | src/modelmanager.cpp:1488-1518 | after a call only versions of the goal are served, failed ones are marked as failed, and no retired or failed version is in the goal |
| Reconciliation.ServedExactly | src/modelmanager.cpp:1434-1518 | served after a call are exactly those versions of the goal that were in the first choice or served before |
| Reconciliation.GoalServedExactly | src/modelmanager.cpp:1482-1497 | every version of the goal is served if and only if those that came into it by a failed reload were served before; goal and first choice are computed from the model, the directory and the outcomes of loading |
| Reconciliation.GoalReached | src/modelmanager.cpp:1434-1525 | if every reload succeeds, exactly the first choice is served, without what the custom loader blacklists |
| Reconciliation.StaysSettled | src/modelmanager.cpp:1434-1525 | after a call, whatever it does, every version is served, ended or failed, if it was so before |
| Reconciliation.FallsBack | src/modelmanager.cpp:1434-1500 | on a model without versions exactly what the policy selects of the loadable versions is served, whatever the policy |
| Reconciliation.FallsBackToGreatest | src/model_version_policy.cpp:54-61 | with latest(k) these are the k greatest loadable versions, or all if there are fewer |
| RepeatedCalls.FailedIsRetried | src/modelmanager.cpp:1216-1218 | the next call, on any directory, reloads a failed version exactly if it is selected of the versions then registered or loadable and not blacklisted |
| RepeatedCalls.NothingLeftToDo | src/modelmanager.cpp:1213-1256 | after a call without failures the model is up to date for the same directory, in whatever order it is listed, and an equal configuration |
| RepeatedCalls.SecondCallDoesNothing | src/modelmanager.cpp:1213-1256 | so a second call has an empty plan and leaves the model as it is |
| RepeatedCalls.NothingLeftAscending | src/modelmanager.cpp:1213-1256 | on an ascending list, whether anything fails is a condition on the model, the directory and the outcomes of loading |
| RepeatedCalls.SecondCallIsFinal | src/modelmanager.cpp:1434-1518 | for every model, policy, blacklist, order of the directory and outcomes of loading, a third equal call leaves every version as the second one left it; it only reloads in vain what failed |
| RepeatedCalls.SecondPollIsFinal | src/modelmanager.cpp:1434-1518 | so does any number of further calls |
| RepeatedCalls.SecondCallServes | src/modelmanager.cpp:1434-1518 | after a first call on a model without versions, a second equal one serves exactly what is selected both of the loadable versions and of the directory without the selected versions that failed, and is not blacklisted |
| RepeatedCalls.StaysServedExactly | src/modelmanager.cpp:1434-1518 | everything served by the first call survives the second if and only if the selection of the loadable versions is within the selection of the directory without the selected versions that failed |
| RepeatedCalls.LatestOneStaysServedExactly | src/model_version_policy.cpp:54-61 | with latest(1) the served version survives a second equal call if and only if at most one available version is greater, which is not blacklisted |
| RepeatedCalls.FailedReloadIsNotReplaced | src/modelmanager.cpp:1482-1497 | with latest(1), in whatever order two versions are listed, one whose reload fails leaves nothing served although the older version could be loaded |
| RepeatedCalls.NeverReplaced | src/modelmanager.cpp:1482-1497 | nor does any number of further calls bring the older version up |
| DirectoryOrder.ServedInAnyOrder | src/modelmanager.cpp:1463-1480 | on a model without versions and a list in any order, exactly the loadable ones of what is selected when the start loop ends are served, without what the custom loader blacklists |
| DirectoryOrder.FallsBackExactly | src/modelmanager.cpp:1467-1476 | for every policy, the selection of the loadable versions is served if and only if all of it is selected when the start loop ends; the next rows say when this is so |
| DirectoryOrder.AllAndSpecificFallBack | src/modelmanager.cpp:1463-1480 | with all and specific it is always served, in whatever order the directory is listed |
| DirectoryOrder.FewFallBack | src/modelmanager.cpp:1463-1480 | so it is with latest(k) if there are at most k versions |
| DirectoryOrder.LatestFallsBackExactly | src/modelmanager.cpp:1467-1476 | with latest(k) and at least k loadable versions the k greatest of them are served if and only if one comes down the list: again and again every failing version of the k greatest left is found in its turn and erased |
| DirectoryOrder.GreatestServedExactly | src/modelmanager.cpp:1467-1476 | with latest(1) the greatest loadable version is served if and only if every greater one is found once it is the greatest left, which is to say that what is selected when the start loop ends can be loaded; nothing else is served |
| DirectoryOrder.NameOrderStopsFallback | src/modelmanager.cpp:1469-1475 | with the greater of two versions first in the list and not loadable, nothing is served although the other version could be |
| Layout.Validate | src/layout.cpp:73-106 | accepts exactly the strings over N, C, H, W, D, '.' and '?' in which no letter occurs twice and the dots, if any, are one run of three |
| Layout.ValidExactly | src/layout.cpp:73-106 | the validity of a layout in terms of its characters alone |
| Layout.RetrieveBatchIndex | src/layout.cpp:54-71 | computes nothing for an invalid layout, otherwise the position at which every tensor that the layout describes has its N, if there is one |
| Layout.BatchIndexExactly | src/layout.cpp:54-71 | k is the batch index if and only if every tensor that the layout describes has its N at k |
| Layout.MakeLayout | src/layout.cpp:45-48 | the constructor keeps the characters and computes a batch index that names N in everything the layout can be expanded to |
| Layout.ExpandMatches | src/layout.cpp:112-126 | replacing the dots keeps the set of tensors that are matched |
| Layout.MergeInPlace | src/layout.cpp:131-143 | the loop computes the pointwise merge, or nothing exactly when the two sides disagree |
| Layout.CreateIntersection | src/layout.cpp:108-146 | the result is the meet of the two layouts with the left batch index, and it is valid and its index names N if the left one does |
| Layout.MeetMatchesBoth | src/layout.cpp:108-146 | the meet matches exactly the tensors that both layouts match |
| Layout.MeetAbsentExactly | src/layout.cpp:108-146 | there is no meet exactly when no tensor of this size matches both |
| Layout.MeetCommutes | src/layout.cpp:108-146 | the order of the two layouts does not matter |
| Layout.MeetAssociates | src/layout.cpp:108-146 | nor does grouping three of them, absence included |
| Layout.MeetIdempotent | src/layout.cpp:108-146 | the meet of a layout with itself is its expansion |
| Layout.CompatibleExactly | src/layout.cpp:162-171 | isCompatible holds exactly for the sizes of tensors that the layout matches |
| Layout.CopiedIndexIsSound | src/layout.cpp:109-109 | a batch index carried by an intersection names its N |
| Layout.CopiedIndexExactly | src/layout.cpp:109-109 | it is the index that the result would compute if and only if the left layout has one or neither names N |
| Layout.IntersectionOfConstructed | src/layout.cpp:109-109 | for two constructed layouts the copied index names the N of the intersection, and it is the index that constructing the intersection would compute if and only if the left layout has one or neither names N |
| Cleaner.CleanerRoutine | src/modelmanager.cpp:1103-1125 | the cleanups run at exactly the multiples of their intervals, hence T/R and T/S times; every single wake-up runs at least one, nothing runs in between, and with a positive resources interval no two wake-ups coincide; an interval of 0 disables only the sequence cleaner |
| BufferSize.ComputeExpectedBufferSize | src/predict_request_validation_utils.hpp:45-56 | succeeds exactly when the product of dimensions and item size fits in size_t, with this product |
| BufferSize.Multiply | src/predict_request_validation_utils.hpp:48-50 | one step fails exactly on overflow and otherwise multiplies without wrapping around |
| BufferSize.DivisionTest | src/predict_request_validation_utils.hpp:48-49 | the test by division is the test for overflow |

## Left out

- OpenVINO, model files, layout preprocessing, cache options and everything else inside `loadModelImpl`: loading is an oracle, with exceptions counted as failed loads.
- Reading directories and configuration files, cloud storage, downloads, temporary files and MD5: the list of available versions and the parsed configuration are inputs. Versions are taken without duplicates; the directories "1" and "01" would both be version 1.
- ModelConfig.IsReloadRequired: the record leaves out the mappings of inputs and outputs, the version policy and the root and local paths, none of which the source compares.
- Model.ModelInstance.LoadModelImpl: shows status and configuration only; components and pool are in the unload-guard protocol.
- Model.ModelInstance.ReloadModel: shows status and configuration only; the drain and the components are in the unload-guard protocol.
- Model.ModelInstance.RetireModel: shows status and configuration only; the drain and the components are in the unload-guard protocol.
- Model.ModelInstance.CleanupFailedLoad: shows status and configuration only; the drain and the components are in the unload-guard protocol.
- The local path of a configuration, which `reloadVersions` may carry over and `isReloadRequired` does not compare.
- Which model a name belongs to: `reloadModelWithVersions` gets the `Model`; for a new name that is a new one with the requested stateful flag.
- gRPC and REST front ends, request and response conversion, pipelines, graphs, stateful sequences, metrics other than the two gauges of the stream guard: subscriber notification does nothing, whether a model is subscribed is an input.
- The C++ memory model and real time: steps are sequentially consistent, sleeps and waits with a timeout are steps that may happen at any time, the number of checks in `waitForLoaded` is a parameter.
- Exceptions outside `loadModelImpl`, and data races that the source catches as `std::out_of_range` in `getVersionsToChange`.
- Concurrency between a reconciliation and dynamic reloads: `Model` and `ModelManager` are sequential, the interleavings are in the unload-guard protocol.
- The nesting of the recursive `loadingMutex`: only its outermost lock and unlock are steps.
- UnloadGuardRequests.GivesUpExactly: does not tell MODEL_VERSION_NOT_LOADED_ANYMORE from MODEL_VERSION_NOT_LOADED_YET; the last read of the state, which only chooses between the two codes, is left out.
- In the unload-guard protocol the pool has atomic calls. `StrandedDrain` joins the queue at the granularity of single accesses with the guard, but reduces the rest of the protocol to admission, closing and the drain.
- DirectoryOrder.LatestFallsBackExactly: asks for at least k loadable versions; with fewer, some failed versions may stay in the list without doing harm, and the condition is the one of `DirectoryOrder.FallsBackExactly`.
- FailureReports.LatestReportsExactly: asks for at least k loadable versions; with fewer and k > 1, whether the last round failed depends on the whole course of the rounds.
- VersionSearch.BinarySearch: the C++ standard leaves the search on a list that is not partitioned undefined; the model follows the usual halving.
- The multiplication that turns cleaner intervals into milliseconds, which can wrap around in 32 bits, is outside `cleanerRoutine`.
- Status codes of failed loads: a failed load is LOAD_FAILED whatever its cause.
- The custom loader's `retireModel` call, and the flag `setCustomLoaderConfigChangeFlag` outside the unload-guard protocol.
- `cleanupAllVersions`, the model queries by version and the other getters would only add easy members.
