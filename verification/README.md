# A verified model of Quark's queue, reactor, gap accounting, cache pruning and random fill

The repository is an actor engine with its benches, its platform layer and its CI scripts. This project models, in
Dafny, the algorithms of it that are hardest to get right, and proves what their comments, checks and tests promise.

**The intrusive queue** (`MpscQueue`, `MpscQueueRuns`, `MpscQueueProgress`, `BatchQueueObject`). `BatchQueue` is a
Vyukov multi-producer, single-consumer queue whose producers publish a whole chain with one exchange. `MpscQueue` is a
transition system with one step per load, store or exchange on shared memory, for any number of producers and one
consumer that also re-inserts the stub. The invariant is one logical list from `head_` to `tail_` whose missing links
correspond one to one to the threads between their exchange and their link store. `MpscQueueRuns` turns it into
theorems about every interleaving: order, exactly-once delivery, node reclaim, the meaning of a null.
`MpscQueueProgress` adds that both operations are wait free. `BatchQueueObject` is the class itself; its methods are
proved to do what the thread's own steps do, from every reachable state.

**The queue's clients.** `ProducerSweep` adds the producers and the checking consumer of the throughput sweep (chains
of K, or recycled cells under an in-flight window), `DescriptorRing` the recycled descriptor ring of the 1p1c bench,
`DrainShutdown` the stop-then-sweep shutdown of the latency bench. Each is the queue's transition system extended by
the threads' own variables, with safety over every run and an exact condition for progress.

**The reactor** (`IoTimers`, `Reactor`, `ReactorRuns`, `ReactorService`, `IoContextObject`). Poster threads, stopper
threads and the loop thread interleave; the eventfd is a saturating counter, `epoll_wait` a level-triggered oracle,
the clock never runs backwards. A run starts before `run()` is called, so it covers what `TcpTransport::start`
registers before it spawns the loop thread and what it takes down after the join
(include/quark/net/tcp_transport.hpp:454-474). `ReactorService` states what callers get, in the terms of their calls;
`IoContextObject` is the class, its methods proved against the steps.

**Gap accounting** (`GapAccounting`). Two loops over a bounded ring, related step by step.

**Cache pruning** (`CacheLists`, `PrunePlan`, `PrunePlanLaws`, `PrunePlanRules`). The planner's loops proved against a
rule-by-rule function, and that function against the promises of the script.

**Random fill** (`Csprng`). The partial-read loop against an arbitrary operating system, and the simulation stream.

`Basics`, `Arithmetic` and `Traces` hold shared vocabulary; a run is a finite sequence of states, each reached from
the one before by a step. Theorems about the queue alone name the steps: there a run is a sequence of labels, and
`LabelsAreRuns` shows that the two notions reach the same states.

## What turned out conditional

* A message id decodes to its sender and number exactly while there are at most 2^24 producers and 2^40 messages each
  (`RoundTripIff`).
* The windowed producers cannot deadlock exactly if the stride at which the consumer publishes its progress (32) is at
  most the window (4096), or no producer sends more than the window (`NoDeadlockIff`).
* The descriptor ring can make progress exactly if it has a descriptor (`RingProgressIff`).
* The final sweep can end exactly if the null from the lone stub counts as Empty (`ShutdownCompletesIff`).
* The comment at `pal/linux_x86_64/net.hpp:403` says that a timer scheduled by a timer lands past `now`. With a delay of
  zero or less and a clock that has not moved it lands on `now`, and there are such runs; it still waits for the next pass
  (`LandsPastNowIff`, `MayLandOnNow`).
* `plan` is idempotent exactly if `keep` is not negative or the quota is: `members[keep:]` with a negative `keep` takes the
  oldest of what is left on every call (`IdempotentIff`).
* Two simulation fills compose to one exactly if the first ends on a multiple of 8 bytes or the second is empty
  (`ComposesIff`).

## Model

| member | source | states |
|---|---|---|
| `MpscQueue.StepKeeps` | bench/mailbox_producer_sweep_bench.cpp:52-70 | Every step of every thread keeps one duplicate-free list from head to tail, each missing link owned by exactly one linking thread, private chains apart from it and from each other, and user nodes conserved between publication and delivery |
| `MpscQueue.RepushKeeps` | bench/mailbox_producer_sweep_bench.cpp:65-66 | When the consumer decides to re-insert the stub, the list is just the front node, so the stub is absent |
| `MpscQueueRuns.DeliveryIsFifo` | bench/mailbox_producer_sweep_bench.cpp:49-71 | In every interleaving the nodes handed out are a prefix of the nodes published, in exchange order; the stub is never handed out |
| `MpscQueueRuns.GapsAreLinkers` | bench/mailbox_producer_sweep_bench.cpp:52-70 | In every reachable state missing links and threads between exchange and link correspond one to one; the stub occurs at most once and is exchanged in only while absent |
| `MpscQueueRuns.ReclaimIsSafe` | bench/mailbox_producer_sweep_bench.cpp:57-70 | A node just returned is neither head nor tail, no thread will write its link or link to it, no listed node leads to it, and it may be published again at once |
| `MpscQueueRuns.NullIsExcused` | bench/mailbox_producer_sweep_bench.cpp:57-70 | A call of `pop` that returns null had an instant at which the queue held no user node or some producer was between exchange and link |
| `MpscQueueRuns.UnoverlappedPopIsExact` | bench/mailbox_producer_sweep_bench.cpp:57-70 | A call overlapped by no such producer returns null exactly if the queue was empty, and otherwise the oldest node |
| `MpscQueueProgress.ProducerAdvancesQueue` | bench/mailbox_producer_sweep_bench.cpp:52-56 | A producer inside `push_chain` is never blocked and has less to do after each step |
| `MpscQueueProgress.ConsumerAdvancesQueue` | bench/mailbox_producer_sweep_bench.cpp:57-70 | With no producer inside and a node waiting, the consumer's next step is possible and either delivers or brings delivery nearer |
| `MpscQueueProgress.PushIsWaitFree` | bench/mailbox_producer_sweep_bench.cpp:52-56 | In every interleaving a call of `push_chain` is over after exactly as many own steps as the chain has nodes, plus two |
| `MpscQueueProgress.PopIsWaitFree` | bench/mailbox_producer_sweep_bench.cpp:57-70 | In every interleaving a call of `pop` takes at most seven steps of the consumer |
| `MpscQueueRuns.LabelsAreRuns` | bench/mailbox_producer_sweep_bench.cpp:49-71 | Label sequences lead exactly to the states that runs of the queue's steps lead to |
| `BatchQueueObject.BatchQueue.constructor` | bench/mailbox_producer_sweep_bench.cpp:51 | The new object is in the initial state of the transition system |
| `BatchQueueObject.BatchQueue.PushChain` | bench/mailbox_producer_sweep_bench.cpp:52-56 | The fields end as after the three steps of the interleaved model: null behind the last node, exchange, link |
| `BatchQueueObject.BatchQueue.Pop` | bench/mailbox_producer_sweep_bench.cpp:57-70 | From any reachable state the fields and the result are those of the consumer's own steps in the interleaved model |
| `BatchQueueObject.SoloPopIsExact` | bench/mailbox_producer_sweep_bench.cpp:57-70 | An uninterrupted `pop` returns the oldest node, or null if and only if there is none or a producer is stopped before the link out of the head or of that node |
| `MessageIds.RoundTrip` | bench/mailbox_producer_sweep_bench.cpp:110-148 | Packing with shift and or, then unpacking, gives back producer and number, below 2^24 and 2^40 |
| `MessageIds.RoundTripIff` | bench/mailbox_producer_sweep_bench.cpp:110-148 | All ids of a run decode correctly if and only if there are at most 2^24 producers and 2^40 messages each |
| `ProducerSweep.SendIsLegal` | bench/mailbox_producer_sweep_bench.cpp:113-133 | The chain a producer publishes consists of distinct nodes that nobody uses, and its counter stays within its share |
| `ProducerSweep.NextIsExpected` | bench/mailbox_producer_sweep_bench.cpp:146-148 | The oldest undelivered message is the one the counter of its sender asks for |
| `ProducerSweep.SweepStepKeeps` | bench/mailbox_producer_sweep_bench.cpp:103-152 | Every step of producers and consumer keeps queue, ids, per-producer streams, counters, fresh slots and window |
| `ProducerSweepRuns.FifoNeverFails` | bench/mailbox_producer_sweep_bench.cpp:121-152 | `fifo_ok` is true at every instant of every run, and each producer's received numbers are 0, 1, 2, ... |
| `ProducerSweepRuns.CheckIsExact` | bench/mailbox_producer_sweep_bench.cpp:146-148 | The check accepts a sequence of ids if and only if all senders are known and the numbers of each are 0, 1, 2, ... |
| `ProducerSweepRuns.FlagMeansOrder` | bench/mailbox_producer_sweep_bench.cpp:141-152 | In every run `fifo_ok` is true if and only if what has been received is in order for each known producer |
| `ProducerSweepRuns.FewestExchanges` | bench/mailbox_producer_sweep_bench.cpp:121-133 | In batch mode a producer publishes its share with exactly as many exchanges as chains of K it takes, rounded up |
| `ProducerSweepRuns.FinishedIsComplete` | bench/mailbox_producer_sweep_bench.cpp:141-152 | When the count reaches `expected`, every message of every producer has been received once, in order |
| `ProducerSweepRuns.ModeDoesNotShow` | bench/mailbox_producer_sweep_bench.cpp:113-133 | Finished runs with different modes or batch sizes deliver the same stream per producer |
| `ProducerSweepRuns.WindowNeverExceeded` | bench/mailbox_producer_sweep_bench.cpp:113-119 | No producer ever has more than the window sent and not delivered |
| `ProducerSweepRuns.BlockedMeansUndelivered` | bench/mailbox_producer_sweep_bench.cpp:115-149 | With a stride at most the window, a spinning producer has an undelivered message or the consumer is about to publish its progress |
| `ProducerSweepProgress.Settle` | bench/mailbox_producer_sweep_bench.cpp:103-152 | From every reachable state some schedule delivers everything sent so far without further sends |
| `ProducerSweepProgress.NoDeadlockIff` | bench/mailbox_producer_sweep_bench.cpp:113-152 | Every reachable state can be completed if and only if the publishing stride is at most the window, or the window is never reached, or chains are used |
| `DescriptorRing.SlotIsFree` | bench/mailbox_1p1c_bench.cpp:53-56 | When the window lets the producer through, the slot it takes is used by nobody, and its previous message has been dequeued |
| `DescriptorRing.RingDeliversInOrder` | bench/mailbox_1p1c_bench.cpp:49-75 | In every run and for every window the k-th descriptor received is that of message k, at most `window` are in flight and at most `total` arrive |
| `DescriptorRing.RingProgressIff` | bench/mailbox_1p1c_bench.cpp:53-73 | Every reachable state can be completed if and only if the window is positive or there is nothing to send |
| `DrainShutdown.NothingStranded` | bench/mailbox_enqueue_latency_bench.cpp:88-122 | Whichever nulls count as Empty, a drainer that has left its sweep has drained every descriptor of every producer |
| `DrainShutdown.SweepNullIsFinal` | bench/mailbox_enqueue_latency_bench.cpp:93-98 | In the sweep a null comes only from the lone stub, and only with everything drained |
| `DrainShutdown.ShutdownCompletesIff` | bench/mailbox_enqueue_latency_bench.cpp:88-122 | The drainer can exit from every reachable state if and only if that null counts as Empty |
| `IoTimers.InsertKeepsOrder` | pal/linux_x86_64/net.hpp:319-321 | A new timer lands behind all with the same or an earlier time and before all later ones |
| `IoTimers.NextTimeoutMs` | pal/linux_x86_64/net.hpp:388-395 | The timeout fits in an `int`; slept in full it reaches the earliest timer with less than 1 ms to spare unless capped; it is -1 exactly without timers and 0 exactly if one is due |
| `IoTimers.PassIsExact` | pal/linux_x86_64/net.hpp:396-402 | A pass takes exactly the timers whose time has come, in order, and leaves the others in order |
| `Reactor.StepKeeps` | pal/linux_x86_64/net.hpp:299-404 | Every step of loop, posters and stoppers keeps task order, wakeups, the stop rule, timer conservation, the pass, the timeout and the registry |
| `Reactor.BehaviourKeeps` | pal/linux_x86_64/net.hpp:299-404 | All of that holds in every reachable state |
| `ReactorRuns.TasksRunOnceInOrder` | pal/linux_x86_64/net.hpp:324-386 | Executed tasks, then the rest of the batch, then the queue are always exactly the posted tasks in the order of the mutex |
| `ReactorRuns.NoLostWakeup` | pal/linux_x86_64/net.hpp:324-386 | While a task whose `post` has returned is queued, the waiting loop can return at once and cannot return without the wake event |
| `ReactorRuns.OneIterationServes` | pal/linux_x86_64/net.hpp:342-386 | Once `epoll_wait` reports events with such a task queued, the task has run before the stop flag is next read |
| `ReactorRuns.StopNeverMissed` | pal/linux_x86_64/net.hpp:333-378 | After `stop` has returned no loop runs, or it will read the flag before its next timeout, or is about to wait with the wake event ready; it leaves `epoll_wait` at most once more |
| `ReactorRuns.TimersFireOnceInOrder` | pal/linux_x86_64/net.hpp:319-404 | Each timer is once fired, taken or waiting; none fires early; a pass takes exactly the due timers scheduled before it and fires them by time and insertion |
| `ReactorRuns.SleptTimeoutFires` | pal/linux_x86_64/net.hpp:343-404 | A wait that ends by an uncapped timeout is followed by a pass that fires at least one timer |
| `ReactorRuns.LandsPastNowIff` | pal/linux_x86_64/net.hpp:396-404 | A timer scheduled inside a pass waits for a later pass, and lands past the pass's `now` if and only if its delay is positive or the clock has moved |
| `ReactorRuns.MayLandOnNow` | pal/linux_x86_64/net.hpp:396-404 | A run in the callback of a timer in which a timer scheduled without delay is due at the pass's `now` |
| `ReactorRuns.UnhandledWasRemoved` | pal/linux_x86_64/net.hpp:357-362 | A reported descriptor without a handler when its turn comes lost it to a `del_fd` after the batch was reported (used by `ReportedAreServed`) |
| `ReactorRuns.RegistryMatchesEpoll` | pal/linux_x86_64/net.hpp:299-316 | The watched descriptors are always exactly those with a handler |
| `ReactorService.ReportedAreServed` | pal/linux_x86_64/net.hpp:342-364 | When the loop next looks at the stop flag, the handlers called since `epoll_wait` reported its events are, in that order and once each, those of the reported descriptors, except for descriptors that a `del_fd` took away since |
| `ReactorService.UndisturbedIsServed` | pal/linux_x86_64/net.hpp:342-364 | A reported descriptor that no `del_fd` takes away has its handler called in that iteration |
| `ReactorService.CallsAreOfRegistered` | pal/linux_x86_64/net.hpp:299-362 | Every handler called is the one of the first accepted `add_fd` for that descriptor since its last `del_fd` |
| `ReactorService.HandlersAreRegistered` | pal/linux_x86_64/net.hpp:299-316 | The registry holds for each descriptor exactly what the calls of `add_fd` and `del_fd` so far say |
| `ReactorService.RequestSchedules` | pal/linux_x86_64/net.hpp:319-321 | A call of `post_after` adds one timer with its task, due at the clock plus the delay, or at the clock for a negative delay |
| `ReactorService.RequestHonoured` | pal/linux_x86_64/net.hpp:319-404 | A task requested at clock c with delay d has not run while the clock is below c + d, and a pass that samples c + d or more takes it unless it has fired before |
| `ReactorService.EndsOnlyWhenAsked` | pal/linux_x86_64/net.hpp:339-348 | The loop ends only after a `stop` or when `epoll_wait` fails for good, and not on an interruption |
| `IoContextObject.IoContext.AddFd` | pal/linux_x86_64/net.hpp:299-306 | Registers the handler if and only if the kernel accepts the descriptor, as the model's step does |
| `IoContextObject.IoContext.DelFd` | pal/linux_x86_64/net.hpp:313-316 | Forgets the descriptor in both places, as the model's step does |
| `IoContextObject.IoContext.PostAfter` | pal/linux_x86_64/net.hpp:319-321 | Adds exactly one timer, due at now plus the delay, or at now for a negative delay, as the model's step does |
| `IoContextObject.IoContext.Post` | pal/linux_x86_64/net.hpp:324-330 | The state after the push and the wake of the model |
| `IoContextObject.IoContext.Stop` | pal/linux_x86_64/net.hpp:333-336 | The state after the flag store and the wake of the model |
| `IoContextObject.IoContext.DrainWake` | pal/linux_x86_64/net.hpp:374-378 | The loop of reads ends with the counter at zero, as the model's last two reads do |
| `IoContextObject.IoContext.RunPosted` | pal/linux_x86_64/net.hpp:379-386 | Runs exactly the tasks queued on entry, in order; what they post stays queued, in order, with the wake event ready |
| `IoContextObject.IoContext.NextTimeout` | pal/linux_x86_64/net.hpp:388-395 | Computes the specified timeout |
| `IoContextObject.IoContext.TakeDue` | pal/linux_x86_64/net.hpp:396-402 | The collecting loop takes the due timers and leaves the rest |
| `IoContextObject.TimerOf` | pal/linux_x86_64/net.hpp:319-321 | The timer of a request made by a callback is due at the clock it read plus its delay, or at that clock for a negative delay |
| `IoContextObject.IoContext.FireDueTimers` | pal/linux_x86_64/net.hpp:396-404 | Fires exactly the timers due on entry, in order; what their callbacks schedule is kept for a later pass, due or not |
| `GapAccounting.RunDerived` | bench/fanout_gap_bench.cpp:55-72 | The consumer-derived loop ends with the deliveries of its step-by-step specification, and `acc` is the sum of their ids and gaps modulo 2^64 |
| `GapAccounting.RunStamped` | bench/fanout_gap_bench.cpp:73-94 | The producer-stamped loop ends with the deliveries of its step-by-step specification, and `acc` is the sum of their ids and gaps modulo 2^64 |
| `GapAccounting.RunsAddUp` | bench/fanout_gap_bench.cpp:55-94 | In both designs `acc` is the sum of the ids delivered and the gaps reported, modulo 2^64 |
| `GapAccounting.DeliversAccepted` | bench/fanout_gap_bench.cpp:59-71 | What is delivered, followed by what is in the ring, is what the ring accepted, in order; a turn that drains empties the ring, any other delivers nothing |
| `GapAccounting.StampedDeliversAccepted` | bench/fanout_gap_bench.cpp:77-92 | The same of the producer-stamped design |
| `GapAccounting.DesignsAgree` | bench/fanout_gap_bench.cpp:55-94 | For every acceptance rule and drain pattern both designs deliver the same ids, report the same gaps and end with the same `acc` |
| `GapAccounting.EverythingAccounted` | bench/fanout_gap_bench.cpp:55-94 | Delivered, reported, in the ring, stamped there and pending add up to published; deliveries with their gaps tile the ids in order |
| `CacheLists.SortSorts` | ci/prune_caches.py:66-72 | Sorting by a total preorder gives a sorted list |
| `CacheLists.SortContents` | ci/prune_caches.py:66-72 | Sorting is a permutation |
| `CacheLists.SortIsStable` | ci/prune_caches.py:66-72 | Elements that compare equal keep their order |
| `CacheLists.TotalAdds` | ci/prune_caches.py:71 | The total is the sum of the sizes |
| `PrunePlan.GroupOf` | ci/prune_caches.py:32-35 | The key up to its last dash, or the whole key if and only if it has none |
| `PrunePlan.DoomWhere` | ci/prune_caches.py:46-59 | The first two loops doom, in order, what the rule selects, and an earlier reason stays |
| `PrunePlan.CollectGroups` | ci/prune_caches.py:61-64 | The dictionary maps each group, in the order of first appearance, to its members in order |
| `PrunePlan.DoomOldOnes` | ci/prune_caches.py:65-68 | The third loop dooms each group's members behind the first `keep`, newest first |
| `PrunePlan.DoomExcess` | ci/prune_caches.py:70-76 | The fourth loop dooms, least recently used first, as many as the quota demands (`Excess`) |
| `PrunePlan.Plan` | ci/prune_caches.py:38-77 | The planner returns the rule-by-rule plan |
| `PrunePlanLaws.RulesInOrder` | ci/prune_caches.py:46-76 | Each rule extends the plan of the rules before it and dooms all it applies to |
| `PrunePlanLaws.ReasonsAreTrue` | ci/prune_caches.py:40-77 | Each deletion is of a managed cache of the list, for the first rule that applies to it |
| `PrunePlanLaws.LeftIsRecent` | ci/prune_caches.py:61-70 | With unique ids, a candidate is left by the third rule if and only if it is among the first `keep` of its group, newest first |
| `PrunePlanLaws.NewestAreKept` | ci/prune_caches.py:61-70 | With unique ids, the third rule leaves `keep` of each group of the candidates, or all, and none that is older than one it dooms |
| `PrunePlanLaws.VictimsAreLru` | ci/prune_caches.py:70-76 | No victim of the quota was used more recently than a cache the quota leaves |
| `PrunePlanLaws.VictimsAreFewest` | ci/prune_caches.py:71-76 | What the quota leaves fits or is empty, and with any last victims restored it would not fit |
| `PrunePlanLaws.SurvivorsAreKept` | ci/prune_caches.py:70-77 | With unique ids, the managed survivors are exactly the caches the quota leaves |
| `PrunePlanLaws.SurvivorsObeyTheRules` | ci/prune_caches.py:38-77 | After the plan no managed cache is closed or stale, no group exceeds `keep`, the total is within quota, and no unmanaged key was in the plan |
| `PrunePlanLaws.UnmanagedStay` | ci/prune_caches.py:40-77 | With unique ids, unmanaged caches survive and no id is deleted twice |
| `PrunePlanRules.ClosedRefMeans` | ci/prune_caches.py:46-53 | With unique ids, a managed cache is deleted as closed-ref if and only if its ref names a pull request that is not open or a branch that does not exist; other refs never are |
| `PrunePlanRules.StaleMeans` | ci/prune_caches.py:55-59 | With unique ids, a managed cache is deleted as stale if and only if it is not deleted as closed-ref and has been idle for the given number of days of 86400 s |
| `PrunePlanRules.StagesMean` | ci/prune_caches.py:46-70 | With unique ids, the third rule sees exactly the managed caches the first two do not delete, and the quota exactly those of them that the third does not |
| `PrunePlanRules.GroupsMean` | ci/prune_caches.py:61-64 | The members of a group are the candidates with its ref and its key head |
| `PrunePlanRules.SupersededMeans` | ci/prune_caches.py:61-68 | A superseded cache has `keep` others of its own ref and key head that are no older and that the third rule leaves |
| `PrunePlanRules.QuotaMeans` | ci/prune_caches.py:70-76 | The managed survivors have at most the quota times 2^30 bytes, and with the last victim restored they would have more |
| `PrunePlanRules.GoneIff` | ci/prune_caches.py:38-77 | With unique ids, a cache does not survive if and only if the plan deletes it |
| `PrunePlanLaws.NegativeKeepAlwaysDooms` | ci/prune_caches.py:67-68 | With a negative `keep`, alike fresh caches always lose at least one |
| `PrunePlanLaws.IdempotentIff` | ci/prune_caches.py:38-77 | Planning again over the survivors of any list deletes nothing if and only if `keep` or the quota allows it: `keep` at least 0, or a negative quota |
| `Csprng.FillFromOs` | pal/csprng.hpp:62-71 | The span holds the first bytes the system offered, in order and each once, nothing else changes, and the loop succeeds exactly when the span is full |
| `Csprng.FillRandom` | pal/csprng.hpp:55-71 | With the simulation stream installed the system is not asked and the call succeeds; otherwise as above |
| `Csprng.SimFill` | pal/csprng.hpp:96-107 | Byte i is byte i mod 8, lowest first, of the mixed word i / 8, and the state advances by 0x9E3779B97F4A7C15 per started word modulo 2^64 |
| `Csprng.FillSpellsWords` | pal/csprng.hpp:96-107 | Every full group of eight bytes spells, lowest byte first, the mixing function at the seed plus the group's multiple of 0x9E3779B97F4A7C15 modulo 2^64 |
| `Csprng.StatesRepeatIff` | pal/csprng.hpp:100 | The states after a and b words are equal if and only if a and b are equal modulo 2^64: the stream has full period |
| `Csprng.AlignedComposes` | pal/csprng.hpp:96-107 | Fills of m and then n bytes give the bytes and the state of one fill of m + n if 8 divides m |
| `Csprng.ComposesIff` | pal/csprng.hpp:96-107 | Fills of m and then n bytes equal one of m + n, whatever the mixing function and state, if and only if 8 divides m or n is 0 |

## Left out

- Weak memory orderings and cache-line layout: every atomic access is one sequentially consistent step.
- Private accesses: reads and writes of `head_`, of locals and of ids in a private chain belong to the neighbouring shared step.
- The engine's `Mailbox` is not part of this model: `BatchQueue` stands in for it in the windowed sweep, the descriptor ring and the shutdown, and its null is split into Empty and Busy by a parameter.
- The engine's `MessagePool` is not part of this model: `acquire` returns any cell that nobody uses; its capacity and its thread caches are not modelled.
- The engine's `StreamChannel` is not part of this model: acceptance of a push is an arbitrary function of the ring operations so far.
- The engine's `splitmix64` is not part of this model: it is an arbitrary function on 64-bit words.
- The bench threads' ready/go barrier, timing, pinning, percentiles, repetition and printing.
- The sweep's raw mode has no model of its own: with `BatchQueue` for the engine's queue it is the batch mode with chains of one.
- Modes 0 and 1 of the fan-out bench, which run the engine's own `FanOut`.
- Fair scheduling: a spinning loop is a step that is not enabled until its condition holds, and progress means that some schedule completes the run, not that every fair one does.
- `IoContext::run` as one method: the loop is the control flow of `Reactor`, because it does not end; the class has the methods it calls.
- `IoContext::mod_fd`, event masks, and the construction and destruction of the descriptors.
- More than 64 ready descriptors at once, reuse of a descriptor number within one batch of events, and closing a watched descriptor without `del_fd`: every ready event is reported by the next wait.
- Callbacks that throw, timer delays that overflow 64 bits, and a monotone clock that runs backwards.
- The float quota is a real number; times are integer microseconds and a missing `ref` is the empty string; parsing of time stamps, the command line and the calls to `gh`.
- Overrides of the random source other than the simulation stream, and the Windows and fallback branches.
- The Windows platform layer, the dashboards, the web interface and the other benches: measurement or thin wrappers.
