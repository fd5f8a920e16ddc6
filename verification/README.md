# Verification of the concurrency and data-structure components

This project models five components and proves what they are for:

- the sharded map `ConcurrentMap` (`concurrent_map/concurrent_map.h`): `FlatMap`, `Convergence`,
  `ConcurrentMap`, `MapLog`, `MapSteps`, `MapOrder`, `MapAnswers`, `MapScan`;
- the bounded blocking thread pool (`http_client/thread_pool.cpp`): `ThreadPool`,
  `ThreadPoolSafety`, `ThreadPoolProgress`, `ThreadPoolHistory`, `ThreadPoolStranding`,
  `ThreadPoolObject`;
- the process-event monitor (`netlink/netlink_proc_mon.cpp`): `ProcMonitor`, `ProcMonitorProgress`,
  `ProcMonitorHistory`, `CallbackRegistry`, `CallbackHistory`, `ProcMonitorObject`;
- the delayed-event queue (`timer/timer.cpp`): `DelayTable`, `TimerSteps`, `TimerHistory`,
  `TimerObject`;
- the cookie jar (`http_client/http_cookie.cpp`): `CookieText`, `CookieJar`.

Each component appears twice. A class keeps the source's fields and updates them in place; its
methods follow the source's branches and are proved against a specification (a function of the old
state, or a step of a transition system). Beside it, lemmas prove what the specification guarantees
over every input, every interleaving and every reachable state. In the transition systems one step
is one critical section (up to its end or to the point where the thread sleeps) or one unlocked
access to a shared flag; condition variables allow spurious wakeups and `notify_one` picks any
sleeper. `Runs` defines, once for all of them, which sequences of moves are possible and where they
lead; `Sequences` holds the sums the counting arguments use.

The transition systems record histories (what was submitted, accepted, logged, posted). The `History`
modules, `MapOrder` and `MapAnswers` tie these records to the calls alone and to what the threads hold
before and after each step, so that the results below are about calls and effects.

## What is shown

**Sharded map.** For every hash, bucket count above zero and `Compare`, every call leaves the map
equal to one flat map on which the call's single-key operations ran in list order, although batches
run bucket by bucket. Concurrently, insertions from any number of clients converge to the most
preferred value of every key. The order of insertions is irrelevant *exactly* when `Compare` is a
strict total order on distinct values; the equality comparator of `concurrent_map/test.cpp` is not
one. In any interleaving of any calls, `Clear` included, the flat map is its log replayed, every
call returns what the flat map returns at the call's place in the log, and at every bucket each
client's work is carried out in the order it was asked for, each piece once. Reads are monotonic
under removal-free runs. A concurrent `GetAllKey` reads every key, present or absent, at one moment
of the call, and these moments increase from bucket to bucket; the list it builds has no key twice
although others insert and remove between its visits, and the weak snapshot and the bounds of a
concurrent `Size` follow.

**Thread pool.** No wakeup is lost, the bound holds, order is first-in first-out, and a submitted
task is in exactly one place, in every reachable state. A running pool comes to rest exactly when
nothing is queued and nobody waits, and it does so within a bounded number of its own steps whatever
the schedule, having executed every task as often as `run` was called with it. After `stop` at most four steps per worker
remain, each worker begins at most one more task, and every `join` returns.

`stop` never signals `notFull_`, so "after `stop` every `run` call gets out" is false of the code: a
reachable state is exhibited in which a call stays inside `run` for ever. How many calls stay behind
is computed exactly. Say that in a stopped pool `q` tasks are queued, `w` calls are inside `run` and
`k` workers are on their way into `take` (awake or just woken by `stop`), and that no further call
comes. With a bound `limit` above zero,

- every schedule lets all calls out if and only if `max(0, q - k) + w <= limit`;
- some schedule lets all calls out if and only if `q + w <= limit + k`;
- once the workers have exited (`k` is 0) both say `q + w <= limit`, and if that fails some call is
  inside `run` after every run.

An unbounded pool (`limit` 0) strands nobody.

**Process-event monitor.** Across any runs of `Start` and `Stop`, each swapped batch is exactly the
newest `kProcEvQueueMaxSize + 1` events accepted since the previous swap, so what is delivered is an
order-preserving selection of what was accepted, and events are lost exactly when more than that
many come between two swaps. While the monitor runs the dispatcher comes to rest within a bounded
number of its own steps, and then every event kept has been delivered. The predicate-free `wait`
misses no wakeup, and `Stop` returns under every schedule within a bound computed from the state.
Identifiers are distinct exactly up to 2^64 identifiers drawn, whatever threads draw them; a
registration is invoked once for each event dispatched while it is listed, and never again after its
removal.

**Delayed-event queue.** The early-exit scan equals the simple filter; a tick posts the due events
sorted by deadline and then by insertion. In a session every event is in exactly one place, none is
posted early, the first tick that scans having read a late enough clock posts it, and from every
reachable state such a tick is never more than a second away, once the one in flight is done. At
most one tick is in flight: the waits outstanding and the callbacks yet to re-arm are one in all, so
re-arming never cancels a wait.

**Cookie jar.** A printed cookie, read back by `readFile`, is the cookie (but for one leading dot of
the domain) exactly when no field holds a tab, a newline or a NUL, the value is not empty and the
domain does not begin with `#`; the domain `#a`, for one, is read as a comment and lost. Writing a
jar to a file and reading the file back gives the jar back exactly when it is empty: `writeFile`
puts no newline after the header or after a record, so everything lands on a comment line. A file
with one record per line does read back, with or without a newline after the last. Updates make the
jar an insertion-ordered map.

## Model

| member | source | states |
|---|---|---|
| FlatMap.ReorderingKeepsMeaning | concurrent_map/concurrent_map.h:137-176 | two operation lists that agree on the order of each key's own operations have the same effect on every map |
| FlatMap.BucketHoldsKey | concurrent_map/concurrent_map.h:266-270 | with every key in bucket `hash(key) % n`, looking a key up in its bucket is looking it up in the flat map |
| FlatMap.SectionRefinesFlat | concurrent_map/concurrent_map.h:67-93 | running operations under one bucket's lock keeps keys in their home bucket and is running them on the flat map |
| FlatMap.SplitIsStable | concurrent_map/concurrent_map.h:226-230 | the per-bucket split keeps each key's operations, all of them and in order, in its home bucket's list only |
| FlatMap.BatchMeansSequentialOrder | concurrent_map/concurrent_map.h:222-264 | regrouping a batch and running it bucket by bucket equals running it in list order on one flat map |
| FlatMap.ListingExtends | concurrent_map/concurrent_map.h:95-102 | appending one more bucket's entries to a listing of the earlier buckets lists the union, each entry once |
| FlatMap.TotalSizeIsFlatSize | concurrent_map/concurrent_map.h:272-279 | the sum of the bucket sizes is the size of the flat map |
| FlatMap.OperationMeans | concurrent_map/concurrent_map.h:137-176 | through lookups: an insertion takes a free key or replaces a losing value, an update only the latter, a removal frees the key; other keys are untouched; the result says whether it was accepted |
| FlatMap.ListMeans | concurrent_map/concurrent_map.h:104-135 | a list of operations does to each key what they make of it one after the other, and each returns whether it was accepted there |
| FlatMap.InsertsMean | concurrent_map/concurrent_map.h:115-124 | after a list of insertions each key holds the winner, by `Compare` in list order, of its value and those listed for it |
| FlatMap.UpdatesMean | concurrent_map/concurrent_map.h:104-113 | so after a list of updates, which adds no key |
| FlatMap.RemovesMean | concurrent_map/concurrent_map.h:126-135 | a list of removals removes exactly the keys listed |
| Convergence.InsertsKeepBest | concurrent_map/concurrent_map.h:145-161 | after any list of insertions each key holds the most preferred of its first value and all values inserted for it |
| Convergence.SameInsertsSameMap | concurrent_map/concurrent_map.h:115-124 | permuting or repeating the entries of an insert batch changes nothing when `Compare` is a strict total order on distinct values |
| Convergence.OrderFreeExactly | concurrent_map/concurrent_map.h:145-161 | insertion order is irrelevant for all maps and lists if and only if `Compare` is a strict total order on distinct values |
| Convergence.SameValueIsOrderSensitive | concurrent_map/test.cpp:7-12 | with the equality comparator the outcome depends on insertion order as soon as two values exist |
| ConcurrentMaps.ConcurrentBucket.InsertWithoutLock | concurrent_map/concurrent_map.h:145-161 | inserts a new key, replaces a losing value, otherwise changes nothing, and says which |
| ConcurrentMaps.ConcurrentBucket.UpdateWithoutLock | concurrent_map/concurrent_map.h:163-176 | replaces a present losing value, otherwise changes nothing, and says which |
| ConcurrentMaps.ConcurrentBucket.RemoveWithoutLock | concurrent_map/concurrent_map.h:138-144 | the bucket is what it was without the key |
| ConcurrentMaps.ConcurrentBucket.RunBatch | concurrent_map/concurrent_map.h:104-135 | the per-bucket batch loops apply the list's operations in order |
| ConcurrentMaps.ConcurrentBucket.GetAllKey | concurrent_map/concurrent_map.h:95-102 | appends every entry of the bucket exactly once, in key order, and keeps what the list held |
| ConcurrentMaps.ConcurrentMap.constructor | concurrent_map/concurrent_map.h:191-198 | builds the given number of distinct empty buckets, none included, meaning the empty map |
| ConcurrentMaps.ConcurrentMap.BucketOf | concurrent_map/concurrent_map.h:266-270 | the selected bucket holds for the key what the whole map holds |
| ConcurrentMaps.ConcurrentMap.LookUp | concurrent_map/concurrent_map.h:200 | returns the flat map's entry for the key |
| ConcurrentMaps.ConcurrentMap.Contain | concurrent_map/concurrent_map.h:202 | true exactly for keys of the flat map |
| ConcurrentMaps.ConcurrentMap.Insert | concurrent_map/concurrent_map.h:204 | the whole map becomes the flat map with the key inserted by the `Compare` rule; the result says whether it was accepted |
| ConcurrentMaps.ConcurrentMap.Update | concurrent_map/concurrent_map.h:206 | the same for an update, which never adds a key |
| ConcurrentMaps.ConcurrentMap.Delete | concurrent_map/concurrent_map.h:208-212 | the key is gone, every other key keeps its entry, and the result is true |
| ConcurrentMaps.ConcurrentMap.Regroup | concurrent_map/concurrent_map.h:224-230 | the `push_back` loop leaves in list `b` exactly the operations homed at bucket `b`, in order |
| ConcurrentMaps.ConcurrentMap.RunBatch | concurrent_map/concurrent_map.h:222-264 | both batch loops together equal the single-key operations in list order on the flat map |
| ConcurrentMaps.ConcurrentMap.InsertKeyBatch | concurrent_map/concurrent_map.h:251-264 | equals inserting the pairs one by one in list order: every key ends with the winner of its value and those listed |
| ConcurrentMaps.ConcurrentMap.UpdateKeyBatch | concurrent_map/concurrent_map.h:222-235 | equals updating the pairs one by one in list order: no key is added, each present one ends with the winner |
| ConcurrentMaps.ConcurrentMap.RemoveKeyBatch | concurrent_map/concurrent_map.h:237-249 | removes exactly the keys listed and keeps every other entry |
| ConcurrentMaps.ConcurrentMap.GetAllKey | concurrent_map/concurrent_map.h:214-220 | run alone, lists every entry of the flat map exactly once, by bucket and in each bucket by key |
| ConcurrentMaps.ConcurrentMap.Size | concurrent_map/concurrent_map.h:272-279 | run alone, returns the number of entries of the flat map |
| ConcurrentMaps.ConcurrentMap.Clear | concurrent_map/concurrent_map.h:281-286 | leaves the empty map |
| MapLog.WipeRefinesFlat | concurrent_map/concurrent_map.h:51-55 | clearing one bucket wipes from the flat map exactly the keys homed there |
| MapLog.LogDecidesEachKey | concurrent_map/concurrent_map.h:33-176 | replaying a log does to each key what its operations and wipes make of it, by the rules of the calls alone, and each operation returns whether it was accepted there |
| MapSteps.StepKeepsWellFormed | concurrent_map/concurrent_map.h:33-135 | every atomic step of any client keeps keys in their home bucket and does what it carries out to the flat map |
| MapSteps.RunIsItsLog | concurrent_map/concurrent_map.h:33-135 | any interleaving of any calls, `Clear` included, has done to the flat map exactly what it added to the log, in that order |
| MapOrder.ProgramMine | concurrent_map/concurrent_map.h:222-286 | at each bucket the sections of a call carry out the call's share of the work there, in the order of the call |
| MapOrder.ClientOrderKept | concurrent_map/concurrent_map.h:222-286 | in any interleaving and at every bucket, what is done for a client followed by what is to come is what it asked for, in order |
| MapOrder.IssuedIsAskedFor | concurrent_map/concurrent_map.h:200-264 | what is recorded as asked for is, client by client and key by key, what the calls of the run ask for |
| MapOrder.ClientKeyOrderKept | concurrent_map/concurrent_map.h:222-286 | for every client and key, what is done followed by what is to come is what the client's calls ask for on the key, in order |
| MapOrder.IssuedIsLoggedOrPending | concurrent_map/concurrent_map.h:222-286 | in any run everything asked for is carried out once or still to come |
| MapOrder.ConcurrentInsertsHoldBest | concurrent_map/concurrent_map.h:115-124 | any interleaving of insert calls that has come to rest holds the most preferred value offered to every key |
| MapOrder.ConcurrentInsertsConverge | concurrent_map/concurrent_map.h:251-264 | two such runs with the same pairs end in the same flat map, whatever their clients, buckets and interleavings |
| MapSteps.MonotonicReads | concurrent_map/concurrent_map.h:33-43 | without removals the entry of a key only advances to values preferred to it and never disappears, for transitive `Compare` |
| FlatMap.SectionAnswersFlat | concurrent_map/concurrent_map.h:67-93 | a locked section returns on its bucket what its operations return on the flat map |
| MapAnswers.CallsReturnWhatTheFlatMapReturns | concurrent_map/concurrent_map.h:33-93 | in any interleaving of any calls, every insert, update and delete returns what the flat map returns when the log is replayed in order, and every lookup finds what the flat map held at its place in the log |
| MapAnswers.RunDecidesEachKey | concurrent_map/concurrent_map.h:33-176 | over any concurrent run each key ends as the log makes of it, each operation on it returns whether it was accepted, and each `LookUp` finds what the log had made of it by then |
| MapAnswers.EveryLookUpIsAnswered | concurrent_map/concurrent_map.h:33-43 | every `LookUp` called for has returned one reading of its key or is still to run |
| MapAnswers.LookUpsAreMonotonic | concurrent_map/concurrent_map.h:33-43 | without removals a `LookUp` returns what an earlier `LookUp` of the key returned or a value preferred to it, and a found key stays found |
| MapScan.ScanReadsEachKeyAtOneMoment | concurrent_map/concurrent_map.h:214-220 | a concurrent whole-map read reports each key as it was at one moment, the moments increasing with the bucket |
| MapScan.ScanListsSeen | concurrent_map/concurrent_map.h:214-220 | whatever others do between the visits, the list appended to bucket by bucket lists what was seen, each key once, by bucket and by key, and the total counts it |
| MapScan.BucketCanBeListed | concurrent_map/concurrent_map.h:95-102 | every bucket can be listed in key order, so the next visit is always possible |
| MapScan.GetAllKeyIsWeakSnapshot | concurrent_map/concurrent_map.h:214-220 | the list a concurrent `GetAllKey` builds has no key twice, each pair on it was present at some moment of the call, and every pair present throughout is on it |
| MapScan.ConcurrentSizeBounds | concurrent_map/concurrent_map.h:272-279 | a concurrent size lies between the keys present throughout and the keys present at some moment |
| ThreadPoolSafety.StepKeepsWork | http_client/thread_pool.cpp:93-109 | every step keeps: no worker asleep, or each queued task has its own woken worker |
| ThreadPoolSafety.StepKeepsRoom | http_client/thread_pool.cpp:45-58 | every step keeps: no producer blocked, or each free slot has its own woken producer |
| ThreadPoolSafety.StepKeepsPhases | http_client/thread_pool.cpp:21-58 | every step keeps which phases threads can be in, before and after `stop` |
| ThreadPoolSafety.StepKeepsPlaces | http_client/thread_pool.cpp:45-109 | every step keeps each submitted task in exactly one place |
| ThreadPoolSafety.ReachableKeepsInv | http_client/thread_pool.cpp:45-109 | all of these, the bound and first-in first-out order hold in every reachable state |
| ThreadPoolSafety.NothingTakenTwice | http_client/thread_pool.cpp:74-109 | no task is taken or finished more often than it was submitted |
| ThreadPoolHistory.HistoriesAreTrue | http_client/thread_pool.cpp:45-109 | what is recorded as submitted, pushed, taken and finished is what `run` was called with, what producers handed over, what workers came out of `take` with, and what returned |
| ThreadPoolHistory.FirstInFirstOut | http_client/thread_pool.cpp:45-109 | tasks come out of `take` in the order in which `run` handed them over, the rest is the queue, and the queue keeps to the bound given at the start |
| ThreadPoolHistory.EveryCallIsExecuted | http_client/thread_pool.cpp:45-109 | a running pool at rest has executed each task as often as `run` was called with it, and no pool ever more often |
| ThreadPoolProgress.RestsExactlyWhenDone | http_client/thread_pool.cpp:45-109 | no deadlock: a running pool has no step of its own left exactly when nothing is queued and nobody waits |
| ThreadPoolProgress.AtRestEverythingIsFinished | http_client/thread_pool.cpp:74-109 | a running pool at rest has finished every task as often as it was submitted |
| ThreadPoolProgress.EverySubmittedTaskIsFinished | http_client/thread_pool.cpp:45-109 | from `start`, the pool's own steps are at most twice the workers plus seven per call plus the spurious wakeups, and at rest all is finished |
| ThreadPoolProgress.StopTerminates | http_client/thread_pool.cpp:21-32 | after `stop` no worker sleeps, at most four worker or join steps per worker remain, and then every join has returned |
| ThreadPoolProgress.EachWorkerTakesAtMostOnce | http_client/thread_pool.cpp:74-82 | after `stop` each worker enters `take` at most once more |
| ThreadPoolProgress.TakenAfterStop | http_client/thread_pool.cpp:93-109 | the tasks begun after `stop` are the front of the queue, at most one a worker, and the rest stay queued in order |
| ThreadPoolStranding.LeftBehindExactly | http_client/thread_pool.cpp:21-109 | however a stopped pool comes to rest, further calls included, the calls left inside `run` are exactly those for whose tasks the bound has no room after the tasks still begun, which are at least the smaller of the queue and the workers in `take` and at most the latter |
| ThreadPoolStranding.OutExactlyIfTheyFit | http_client/thread_pool.cpp:45-72 | once the workers are gone the calls inside `run` get out if and only if the queue has room for all their tasks; otherwise some call is inside after every run |
| ThreadPoolStranding.NobodyIsStrandedExactly | http_client/thread_pool.cpp:21-109 | after `stop` every schedule lets every call out of `run` if and only if the bound covers the calls inside and the queued tasks beyond one for each worker in `take` |
| ThreadPoolStranding.SomeScheduleStrandsNobodyExactly | http_client/thread_pool.cpp:21-109 | some schedule does if and only if the bound and the workers in `take` together cover queued tasks and calls |
| ThreadPoolStranding.StoppedPoolComesToRest | http_client/thread_pool.cpp:45-109 | the steps left to workers and producers after `stop` are at most six a worker and two a producer, plus two per further call and one per spurious wakeup, so rest is reached |
| ThreadPoolStranding.FullStoppedPoolStrandsProducers | http_client/thread_pool.cpp:45-72 | with the workers gone and the queue full, every call inside `run` stays there with its task, further calls or not |
| ThreadPoolStranding.StopCanStrandAProducer | http_client/thread_pool.cpp:21-58 | such a state is reachable |
| ThreadPools.ThreadPool.Start | http_client/thread_pool.cpp:34-43 | sets the flag and adds the threads to those already there; on a new pool that is the first state of the transition system |
| ThreadPools.ThreadPool.Run | http_client/thread_pool.cpp:45-58 | one pass of `run` under the mutex is the corresponding step |
| ThreadPools.ThreadPool.Take | http_client/thread_pool.cpp:93-109 | one pass of `take` under the mutex is the corresponding step |
| ThreadPools.ThreadPool.RunInThreadTurn | http_client/thread_pool.cpp:77-82 | an uninterrupted turn of the worker's loop exits on a stopped pool, sleeps on an empty queue, and otherwise finishes exactly the oldest task and lets one blocked caller go on |
| ThreadPools.ThreadPool.Stop | http_client/thread_pool.cpp:23-27 | clearing the flag and `notify_all` is the corresponding step, and changes nothing on a stopped pool |
| ThreadPools.ThreadPool.JoinAll | http_client/thread_pool.cpp:29-31 | whatever the schedule of the threads it waits for, the loop ends with every thread exited and joined, by a run of worker and join steps |
| ProcMonitorProofs.StepKeepsPhases | netlink/netlink_proc_mon.cpp:75-103 | every step keeps: a dispatcher asleep has an empty queue and `Stop` has not yet notified |
| ProcMonitorProofs.PushKeepsDelivery | netlink/netlink_proc_mon.cpp:252-259 | the drop-oldest push keeps the queue equal to the newest events accepted since the last swap |
| ProcMonitorProofs.SwapKeepsDelivery | netlink/netlink_proc_mon.cpp:294-301 | a swap takes out exactly the newest events accepted since the previous swap |
| ProcMonitorProofs.ReachableKeepsInv | netlink/netlink_proc_mon.cpp:49-103 | exact delivery, no missed wakeup and the queue bound hold in every reachable state across runs of `Start` and `Stop` |
| ProcMonitorProofs.DeliveryIsSubsequence | netlink/netlink_proc_mon.cpp:249-312 | delivered events, the batch in hand and the queue are an order-preserving selection of the accepted events |
| ProcMonitorProofs.LostExactlyOnOverflow | netlink/netlink_proc_mon.cpp:254-256 | nothing is lost if and only if no two swaps have more than the queue's capacity of events between them |
| ProcMonitorProgress.RestsExactlyWhenDelivered | netlink/netlink_proc_mon.cpp:283-312 | in a started monitor the dispatcher rests exactly when it waits, and then the queue is empty and all that was kept of every swap is delivered; that is everything accepted if and only if no swap overflowed |
| ProcMonitorProgress.EveryKeptEventIsDelivered | netlink/netlink_proc_mon.cpp:283-312 | the dispatcher's own steps are at most six per accepted event and three per start, stop and spurious wakeup, and when it can take no more every kept event is delivered |
| ProcMonitorHistory.HistoriesAreTrue | netlink/netlink_proc_mon.cpp:231-312 | what is recorded as accepted, with the event in the producer's hand, is what `recv` yielded; the records of deliveries and swaps are what the dispatcher did |
| ProcMonitorHistory.HeardIsKeptExactly | netlink/netlink_proc_mon.cpp:231-312 | what is delivered, in hand or queued is what was heard with some left out and the rest in order, and all of it if and only if no interval between swaps overflowed |
| ProcMonitorHistory.EverythingHeardIsDelivered | netlink/netlink_proc_mon.cpp:231-312 | when the dispatcher rests and the producer has nothing in hand, what was kept of each interval is delivered; everything heard is if and only if none overflowed |
| ProcMonitorHistory.ProducerStays | netlink/netlink_proc_mon.cpp:231-247 | the producer leaves only when told to stop or when `recv` failed |
| ProcMonitorHistory.ProducerListensAgain | netlink/netlink_proc_mon.cpp:231-260 | from every state of a started monitor at most two steps bring a producer that has not failed back to `recv` |
| ProcMonitorProgress.StopNeverStuck | netlink/netlink_proc_mon.cpp:75-103 | until `Stop` has joined both threads some step is possible |
| ProcMonitorProgress.StopReturns | netlink/netlink_proc_mon.cpp:75-103 | every schedule reaches the end of `Stop` within a bound computed from the state |
| CallbackRegistry.DrawnInOrder | netlink/netlink_proc_mon.h:41-45 | over any run the identifiers `generateId` returns are the counter's successive values modulo 2^64 |
| CallbackRegistry.IdsDistinctExactly | netlink/netlink_proc_mon.h:41-45 | the identifiers returned over any run from the empty registry are pairwise distinct if and only if at most 2^64 were drawn |
| CallbackRegistry.StepKeepsInv | netlink/netlink_proc_mon.cpp:201-217 | up to 2^64 registrations, identifiers in the list and being added stay distinct and drawn before |
| CallbackRegistry.DispatchReachesEachOnce | netlink/netlink_proc_mon.cpp:272-281 | one event reaches each listed non-empty callback exactly once and nobody else |
| CallbackRegistry.DispatchFollowsTheList | netlink/netlink_proc_mon.cpp:276-280 | callbacks registered earlier are called earlier |
| CallbackRegistry.InvokedExactlyWhileRegistered | netlink/netlink_proc_mon.cpp:272-281 | over any run a registration is invoked exactly as often as events were dispatched while it was listed |
| CallbackHistory.InvocationsMean | netlink/netlink_proc_mon.cpp:272-281 | a call is made if and only if it is that of a listed registration, with its own function, context and identifier and with the event |
| CallbackHistory.EarlierIsCalledEarlier | netlink/netlink_proc_mon.cpp:276-280 | of two listed registrations the earlier one is called earlier |
| CallbackHistory.CalledExactlyAsRegistered | netlink/netlink_proc_mon.cpp:201-217 | over any run the calls under an identifier are, in order, one for each event dispatched between its registration and its removal, with the function and context given at registration and that event |
| CallbackRegistry.RemovedNeverInvokedAgain | netlink/netlink_proc_mon.cpp:211-217 | after removal a registration is never invoked again and all others are kept |
| NetlinkProcMons.NetlinkProcMon.Start | netlink/netlink_proc_mon.cpp:49-73 | starts both threads, or does nothing: with 0 when already started (a stop in progress included), with -1 when connecting or subscribing fails |
| NetlinkProcMons.NetlinkProcMon.PushEvent | netlink/netlink_proc_mon.cpp:252-260 | the locked push is the corresponding step |
| NetlinkProcMons.NetlinkProcMon.LockSection | netlink/netlink_proc_mon.cpp:288-298 | the dispatcher's section up to the swap or the wait is the corresponding step |
| NetlinkProcMons.NetlinkProcMon.WakeSection | netlink/netlink_proc_mon.cpp:298-302 | what follows the wait is the corresponding step |
| NetlinkProcMons.NetlinkProcMon.ForEachCallback | netlink/netlink_proc_mon.cpp:272-281 | makes exactly the calls of the list, in order, skipping empty callbacks |
| NetlinkProcMons.NetlinkProcMon.DeliverNext | netlink/netlink_proc_mon.cpp:304-309 | one turn of the delivery loop delivers the batch's first event to the callbacks then registered |
| NetlinkProcMons.NetlinkProcMon.DeliverBatch | netlink/netlink_proc_mon.cpp:304-309 | the whole delivery loop, the registry left alone meanwhile, delivers the batch in order and calls every registered callback for each event |
| NetlinkProcMons.NetlinkProcMon.NotifySection | netlink/netlink_proc_mon.cpp:87-90 | the locked notification is the corresponding step |
| NetlinkProcMons.NetlinkProcMon.GenerateId | netlink/netlink_proc_mon.h:41-45 | returns the counter and advances it modulo 2^64 |
| NetlinkProcMons.NetlinkProcMon.AppendCallback | netlink/netlink_proc_mon.cpp:203-208 | appends the registration under the identifier drawn before and returns it |
| NetlinkProcMons.NetlinkProcMon.AddProcEvCallback | netlink/netlink_proc_mon.cpp:201-209 | uninterrupted, appends the registration under the counter's value, returns that value and advances the counter |
| NetlinkProcMons.NetlinkProcMon.RemoveProcEvCallback | netlink/netlink_proc_mon.cpp:211-217 | removes exactly the registrations with that identifier and keeps the order of the others |
| DelayTable.ScanIsFilter | timer/timer.cpp:91-99 | the early-exit scan takes exactly the events with deadline at most now and leaves the table the others alone would have built |
| DelayTable.TableIsStableSort | timer/timer.cpp:70 | the table lists its events by deadline and then by insertion, none added or missing |
| DelayTable.ScanTakesDueInOrder | timer/timer.cpp:88-100 | one scan takes the due events stably sorted by deadline |
| TimerSteps.TickPostsExactlyTheDue | timer/timer.cpp:88-100 | one tick posts exactly the pending events its clock reading has reached, in order, and keeps the others |
| TimerSteps.StepKeepsPlace | timer/timer.cpp:64-100 | every step keeps each submitted event in exactly one place |
| TimerSteps.ReachableKeepsInv | timer/timer.cpp:64-105 | in every reachable state of a session that holds, nothing was posted before its deadline, and at most one tick is in flight |
| TimerSteps.PostedIsNotPending | timer/timer.cpp:93-95 | nothing posted is still pending |
| TimerSteps.PostedByFirstTickThatCan | timer/timer.cpp:80-105 | an uncleared event stays pending exactly until the first tick that scans with a clock at or past its deadline, which posts it |
| TimerSteps.StepKeepsOneTick | timer/timer.cpp:80-105 | with any number of waits and callbacks allowed, every step keeps the waits outstanding and the callbacks yet to re-arm at one in all, and re-arming finds no wait to cancel |
| TimerSteps.ASecondAwayFromPosting | timer/timer.cpp:80-105 | from every reachable state, finishing the tick in flight if there is one, letting a second pass and running the next tick posts every pending event due by then and keeps the others |
| TimerHistory.EventsAreAsRequested | timer/timer.cpp:64-72 | every event anywhere is one that was asked for, with the clock reading and the delay of its call |
| TimerHistory.NeverPostedEarly | timer/timer.cpp:64-100 | no step posts an event while the clock is below the time of its call plus its delay in seconds |
| TimerHistory.InsertedIsPostedInTime | timer/timer.cpp:64-105 | once inserted, an event nobody clears has been posted if and only if a tick has scanned since with a reading at or past that time |
| TimerHistory.ClearedIsNeverPosted | timer/timer.cpp:74-78 | an event pending at a clear is never posted |
| TimerHistory.TicksAreASecondApart | timer/timer.cpp:102-104 | after re-arming no tick begins or scans until a second has passed |
| TimerTaskQueues.TimerTaskQueue.Start | timer/timer.cpp:13-42 | when stopped, restarts a stopped executor, adds the worker threads, arms the timer for one second later and opens the session; otherwise does nothing |
| TimerTaskQueues.TimerTaskQueue.PostEvent | timer/timer.h:36-41 | posts to the executor unless stopped |
| TimerTaskQueues.TimerTaskQueue.PostDelayedEvent | timer/timer.cpp:64-72 | adds the event under now plus the delay unless stopped |
| TimerTaskQueues.TimerTaskQueue.ClearDelayedEvent | timer/timer.cpp:74-78 | empties the table |
| TimerTaskQueues.TimerTaskQueue.DrainDue | timer/timer.cpp:88-100 | the loop posts exactly the due events, stably sorted by deadline, and leaves the table of the others |
| TimerTaskQueues.TimerTaskQueue.CheckDelayedEventCallback | timer/timer.cpp:80-105 | on an error clears the table and does not re-arm; otherwise posts the due events stably sorted, keeps the others and re-arms once, at the end |
| CookieText.CookieReadsBackExactly | http_client/http_cookie.cpp:13-124 | a printed cookie on a line of its own, read by `readFile`, is the cookie but for a leading dot, if and only if no field holds a tab, newline or NUL, the value is not empty and the domain does not begin with `#` |
| CookieText.LineIsRead | http_client/http_cookie.cpp:33-63 | any one line of fields: with fewer than seven no defined outcome, otherwise the cookie with the first seven in the order domain (a leading dot dropped), flag, path, flag, expiry, name, value |
| CookieText.SevenFieldsAreRead | http_client/http_cookie.cpp:42-62 | the same with the line spelled out, flags `TRUE` and `FALSE` |
| CookieText.DotIsTakenOff | http_client/http_cookie.cpp:51-54 | a clean record with the domain `.` and d reads as the cookie with the domain d, one that begins with no dot as itself |
| CookieText.RecordSpelledOut | http_client/http_cookie.cpp:107-122 | the printed record is the seven fields in order with tabs between |
| CookieText.FileGrows | http_client/http_cookie.cpp:97-125 | the file of a jar with one more cookie is the file of the jar followed by one more record, up to its first NUL |
| CookieText.HashDomainIsLost | http_client/http_cookie.cpp:38-39 | a cookie whose domain begins with `#` is read as a comment |
| CookieText.RecordRoundTripExactly | http_client/http_cookie.cpp:42-60 | the field parsing of one line alone: taking a printed record apart gives the cookie back, but for a leading dot, if and only if no field holds a tab and the value is not empty |
| CookieText.WrittenCookiesVanish | http_client/http_cookie.cpp:97-128 | a jar without newlines, written and read back, yields no cookie |
| CookieText.FileRoundTripOnlyWhenEmpty | http_client/http_cookie.cpp:13-128 | writing any jar and reading the file back gives the jar if and only if it is empty |
| CookieText.ProperFileReadsBack | http_client/http_cookie.cpp:19-63 | a file of blank lines, comments and clean records, one a line, reads as exactly its cookies in order, with or without a newline after the last line |
| CookieJars.JarIsInsertionOrderedMap | http_client/http_cookie.cpp:146-156 | from an empty jar, updates yield distinct domains in first-seen order, each with its last-written cookie |
| CookieJars.OccursMeans | http_client/http_cookie.cpp:137 | a domain is found in a URL if and only if the URL is the domain with something before and after it |
| CookieJars.MatchIsEarliestDomain | http_client/http_cookie.cpp:135-144 | the match is the earliest-added domain occurring in the URL, with its last-written cookie, or none |
| CookieJars.HttpCookie.UpdateOrAddCookie | http_client/http_cookie.cpp:146-156 | overwrites the first cookie of the domain in place or appends |
| CookieJars.HttpCookie.GetMatchCookie | http_client/http_cookie.cpp:135-144 | returns the first cookie whose domain occurs in the URL, or none |
| CookieJars.HttpCookie.Split | http_client/http_cookie.cpp:47-49 | the `std::getline` loop yields exactly the tokens between delimiters, none after a final one |
| CookieJars.HttpCookie.ReadFile | http_client/http_cookie.cpp:13-64 | replaces the jar by what the text holds (`LineIsRead` says what each line gives), leaves it alone for an empty file, and reports where the code has no defined outcome |
| CookieJars.HttpCookie.PrintRecord | http_client/http_cookie.cpp:109-122 | the appends print the seven fields separated by tabs |
| CookieJars.HttpCookie.WriteFile | http_client/http_cookie.cpp:97-128 | the file holds the header and the records without any newline after the header's last line |

## Left out

- ConcurrentMaps.ConcurrentMap.Size: counts in unbounded integers, because a map in memory has far fewer than 2^64 entries.
- ThreadPools.ThreadPool.Start: on a pool that was stopped before, says what the fields become and no more; the exited threads are still in `threads_`, and the next `stop` joins them again, which throws.
- NetlinkProcMons.NetlinkProcMon.Start: does not model a failing thread creation, whose exception the code swallows.
- TimerTaskQueues.TimerTaskQueue.Start: counts the worker threads and does not model the table of their activity times.
- `thread_pool/`: a second, unfinished pool whose push never wakes a sleeping worker.
- `single_instance_process/`, `crash_handler/`, `load_library/` and the libcurl client: system calls and library plumbing.
- Netlink sockets and message layout: the producer receives an arbitrary stream of events and errors; the socket itself is not modelled.
- Tasks and callbacks: opaque, returning and not calling back into the pool or the registry; exceptions they throw and empty tasks are not modelled.
- Plain `bool` flags are read and written as if sequentially consistent.
- Changing `maxQueueSize_` after the first `run`, a negative bound, and calls to `run` while `start` is still creating threads.
- Timer: the theorems are about one session between `Start` and `Stop`; the executor's own scheduling and handlers surviving a restart are not modelled. In the class, entries drained after `stoped_` is set are lost, as in the code.
- Clocks are unbounded integers and a parameter of the methods.
- Cookie file I/O: files are strings, and a failed `fopen` is not modelled. The result of `cookie.substr(10)` on `#HttpOnly_` lines is discarded by the code, so the prefix has no effect here either.
