# Scheduler models and proofs

A Dafny model of a task scheduler that is shared between kernel and user space: its two
lock-free queues, the multi-CPU scheduler state machine with its `on_cpu` handshake and
coroutine stacks, joining and wait queues, and the completely fair and round-robin
policies. Concurrent code is modelled as step systems, one step per atomic access, over
sequentially consistent memory, with any number of threads or CPUs; code that works in
place is modelled as classes over arrays and fields. `dafny verify dfyconfig.toml` checks
everything.

| files | contents |
|---|---|
| `Wrappers`, `TaskTypes` | an optional value; task names, states and queues without a task |
| `DequeSpec`, `DequeMachine`, `DequeLinearizability`, `DequeOwnership`, `DequeBudget`, `DequeSolo` | the lock-free deque as a step system: linearizability, slot ownership, conservation, the exact bound on its load, and what an uninterrupted operation answers |
| `Ring`, `RingDeque` | the same ring driven by one thread, in place, against a sequence |
| `MapMachine`, `MapConservation`, `MapEffects`, `MapVersions`, `MapDistinct`, `MapMinimality`, `MapCounter`, `MapBounded`, `MapLone` | the lock-free ordered map as a step system: conservation, version guard, the one place of every entry, minimality of a pop, the counter, the bound on every operation, and what an uninterrupted one does |
| `Ordering`, `SlotTable`, `SlotMap` | the slot array driven by one thread, in place, against a finite sorted map |
| `SchedMachine`, `SchedPlacement`, `SchedTheorems`, `SchedHandshake`, `SchedProgress`, `SchedLife`, `SchedStacks` | the multi-CPU scheduler: where tasks are, the handshake and how long it can take, how tasks change state and reach queues and CPUs, the coroutine stacks |
| `JoinMachine`, `JoinTheorems`, `JoinReturns` | joining an exiting task: never missing the exit, never returning before it |
| `WaitQueues`, `WaitMachine`, `WaitTheorems` | the wait-queue operations in place, and as a step system over several queues |
| `CfsModel`, `CfsScheduler`, `CfsFairness`, `CfsTightness`, `CfsArrivals`, `CfsShares`, `CfsWeights` | the completely fair policy: effect of every operation, index agreement, the fairness bound and that it is attained, when a task that joins keeps it, shares by weight, what a nice value is worth |
| `RoundRobinModel`, `RoundRobin`, `RoundRobinWaiting`, `RoundRobinTurns` | the round-robin policy: effect of every operation, bounded waiting, what a turn is worth |

## What came out

- The successful operations of the deque are linearizable with no bound on its load at all.
  An operation that gives up is exact when no step of another thread comes in between
  (`DequeSolo.LoneExact`), and unexplained otherwise. The bound that callers must keep, stored
  items plus pushes in flight below the capacity, is needed for something else: only then
  do equal indices mean an empty deque. Two racing pushes can otherwise fill the last slot,
  after which the deque never moves again (`DequeBudget.BudgetExact`,
  `DequeBudget.DeadlockExact`, `DequeBudget.StuckForever`).
- `take_prev_task_and_clear_on_cpu` is right exactly after a switch that changed the
  current task. A thread that yields with nothing else to run switches to itself, returns
  early, and the take that follows has no previous task to work on, or clears the mark of the
  task that is running (`SchedHandshake.TakePrevExact`, `SchedHandshake.SelfSwitchHappens`).
  The state machine therefore takes the previous task once per real switch.
- No thread misses the exit of the task it joins. `join_f` tests its condition without the
  lock, and the joiners that can be left asleep are exactly the coroutines among them
  (`JoinTheorems.StrandsExactlyCoroutines`).
- A task taken out of a wait queue is always one that was blocked, whatever `requeue` moves,
  as long as all wakeups come through the queues. With wakeups from elsewhere a `notify_one`
  can report success and wake nobody while a blocked task waits behind
  (`WaitTheorems.EveryNotificationWakes`, `WaitTheorems.SwallowsExactlyWithStrays`).
- An entry can outlive the wait it was made for exactly when there are such wakeups and
  either tasks are requeued or waits block again in a loop: `cancel_events` looks only into
  the queue the wait was on, and only while the task is marked, but a task that loops in
  `wait_until` after a stray wakeup has two entries and one mark
  (`WaitTheorems.OutlivesExactly`).
- The completely fair scheduler's recorded minimum is never anything but 0 while the live
  tasks fit the queue. Tasks added up front stay within 69 of each other, or 1 without
  positive nice values, as long as none of them blocks and comes back, and some do drift 69
  apart (`CfsFairness.Fairness`, `CfsTightness.BoundAttained`).
- Joining later costs that bound. A task added late starts at 0, and a task woken starts
  where it blocked, both arbitrarily far behind (`CfsShares.LateArrivalGap`,
  `CfsShares.WakeupGap`). A bound survives an addition exactly when no live task has run
  further than the bound, and a wakeup exactly when all live tasks are within the bound of
  the woken one (`CfsArrivals.ArrivalExact`, `CfsArrivals.WakeExact`); checked each time, it
  holds throughout (`CfsArrivals.OpenFairness`).
- A nice step is worth between 6/5 and 32/25 of the running time, and `d` of them the d-th
  power of 5/4 up to 103/97 (`CfsWeights.NiceShares`).
- Every operation of the ordered map ends after a number of its own steps that depends on
  the number of slots only (`MapBounded.EveryOperationEnds`).
- Under round robin a queued task gets its turn within one full slice of every other task,
  unless two things come together: tasks woken with a slice left jump the queue, and their
  slices are filled up elsewhere. Then two such tasks, with slices longer than a tick, can take
  turns before a third one for ever (`RoundRobinWaiting.WaitingExact`).
- `add_task` of the fair scheduler files a task under its virtual runtime exactly when its
  past running time weighs nothing; it resets `init_vruntime` but not `delta`
  (`CfsModel.AddFilesExactly`).
- In the ordered map the comment at utils/src/btreemap.rs:268-270 says that a version
  mismatch goes on with the next round; the `break` there leaves the search for the key
  and goes on with the search for an empty slot. The model does what the code does.

## Model

| member | source | states |
|---|---|---|
| DequeLinearizability.Linearizable | utils/src/deque.rs:50-336 | the events of any run, with any number of threads, stale loads, index reuse and spurious compare-and-swap failures, are those of a run of the atomic deque: each success takes effect on a sequence at its index compare-and-swap, and each pop answers with the item that sequence gives; operations may give up at any time |
| DequeLinearizability.StepRefines | utils/src/deque.rs:50-336 | every single step of any thread is matched by a step of the atomic deque and keeps the refinement relation |
| DequeLinearizability.CommitShift | utils/src/deque.rs:83-97 | a successful index compare-and-swap shifts the circular range by exactly the claimed slot, pushing its item or taking it out at the right end |
| DequeOwnership.OwnershipThroughout | utils/src/deque.rs:71-105 | in every state of every run a WRITING or READING slot has exactly one owning thread, of the matching kind of operation |
| DequeOwnership.RestingRing | utils/src/deque.rs:212-246 | with no operation in progress the circular range is all READY, holding the sequence in order, and every other slot is EMPTY |
| DequeOwnership.Conservation | utils/src/deque.rs:287-321 | in every run of the atomic deque, after any number of steps, the items pushed are, as multisets, the items popped plus those stored, and no pop holds an uninitialised answer |
| DequeOwnership.ItemsAreTraced | utils/src/deque.rs:83-97 | an item put in is that of the thread's last call, a push, and an item that a pop returns was got out by that thread since its call |
| DequeOwnership.RunConserves | utils/src/deque.rs:50-336 | in every run of the concrete deque, at every point, pushed equals popped plus stored, no pop holds or returns an uninitialised item, and all items are those of the threads' own calls |
| DequeBudget.LoadStep | user_test/src/bin/spawn.rs:8-9 | callers that start a push only below a budget keep stored items plus pushes in flight within it |
| DequeBudget.IndicesMeet | utils/src/deque.rs:203-206 | head equals tail exactly when the deque is empty or holds one item per slot |
| DequeBudget.BudgetExact | utils/src/deque.rs:1-2 | for any set of at least two threads, equal indices mean an empty deque in every run if and only if the budget is below the capacity |
| DequeBudget.DeadlockExact | utils/src/deque.rs:1-2 | for any set of at least two threads, no run ends in the stuck state if and only if the budget is below the capacity |
| DequeBudget.StuckForever | utils/src/deque.rs:745 | once overfull and at rest the deque never changes: no push returns and every pop that returns reports an empty deque |
| DequeBudget.OverfullIsStuck | utils/src/deque.rs:745 | a resting deque with one item per slot is in that stuck state |
| DequeSolo.LoneExact | utils/src/deque.rs:50-336 | an operation that no step of another thread interrupts fails exactly when the deque is full, at one slot less than there are, or empty; it then changes nothing, and else has the effect and the answer of the sequence |
| DequeSolo.LoneFinishes | utils/src/deque.rs:50-336 | with all threads at rest such an operation returns after at most eight steps |
| Ring.AtOffset | utils/src/deque.rs:351-353 | slot number and position in the sequence determine each other across the wrap-around |
| RingDeque.FillFront | utils/src/deque.rs:60-92 | filling the free slot before the front turns the ring into one that stands for the sequence with the item in front |
| RingDeque.FillBack | utils/src/deque.rs:132-164 | filling the slot at the tail turns the ring into one that stands for the sequence with the item at the end |
| RingDeque.DrainFront | utils/src/deque.rs:212-236 | emptying the front slot turns the ring into one that stands for the sequence without its first item, which that slot held |
| RingDeque.DrainBack | utils/src/deque.rs:281-308 | emptying the slot before the tail turns the ring into one that stands for the sequence without its last item, which that slot held |
| RingDeque.Deque.PushFront | utils/src/deque.rs:50-118 | fails exactly when the ring holds one item less than its slots, returning the item; else the item is in front; spurious failures roll back and change nothing |
| RingDeque.Deque.PushBack | utils/src/deque.rs:122-190 | fails exactly when the ring holds one item less than its slots, returning the item; else the item is at the end |
| RingDeque.Deque.PopFront | utils/src/deque.rs:194-262 | answers nothing exactly when the ring is empty, else removes and returns the first item |
| RingDeque.Deque.PopBack | utils/src/deque.rs:266-336 | answers nothing exactly when the ring is empty, else removes and returns the last item |
| RingDeque.Deque.Len | utils/src/deque.rs:339-354 | the length of the sequence, also when the range wraps around |
| RingDeque.Deque.IsEmpty | utils/src/deque.rs:357-367 | true exactly for the empty sequence |
| RingDeque.Deque.Drop | utils/src/deque.rs:376-379 | takes out every item, front first, and ends |
| MapConservation.StepKeeps | utils/src/btreemap.rs:229-475 | every step of insert, first_key_value, pop_first and clear keeps the slot-ownership invariant and extends the history of published entries |
| MapConservation.Conservation | utils/src/btreemap.rs:279-298 | at any moment of any run a published entry is unchanged in exactly one slot, or the history has recorded its end and it is in none |
| MapConservation.FateOnce | utils/src/btreemap.rs:398-422 | an entry leaves the map once: fates are final, and a pop takes, and answers with, an entry that had none |
| MapConservation.PoppedOnce | utils/src/btreemap.rs:398-422 | in no run do two pops return the same published entry |
| MapDistinct.FateHasCause | utils/src/btreemap.rs:398-422 | whatever the history records as the end of an entry has the earlier step that took or replaced it |
| MapDistinct.LeavesOnce | utils/src/btreemap.rs:398-422 | an entry leaves the map in one step only, whether a pop, an update or a clear takes it |
| MapDistinct.KeysThroughout | utils/src/btreemap.rs:229-271 | if no two insertions are invoked with the same key, all keys under way and all keys ever published stay distinct, below 2^32 insertions |
| MapDistinct.NeverReplaced | utils/src/btreemap.rs:236-271 | then no entry is ever replaced |
| MapDistinct.ExactlyOnePlace | utils/src/btreemap.rs:279-298 | then at every point after its publication an entry is unchanged in exactly one slot, or was taken by exactly one pop, which answers with its key and value, or clear |
| MapDistinct.SlotOrPop | utils/src/btreemap.rs:398-422 | then, if nobody clears the map, an entry is in exactly one slot or was handed out by exactly one pop: none is lost and none is returned twice |
| MapEffects.Effects | utils/src/btreemap.rs:84-122 | a step changes at most one slot, and only as the thread's place in the code allows |
| MapEffects.OwnedThroughout | utils/src/btreemap.rs:84-113 | every slot being written or deleted is so by some thread, in every state of every run |
| MapVersions.IntactStays | utils/src/btreemap.rs:236-271 | below 2^32 insertions no slot comes to show a version anew, and none changes its entry under a version it shows |
| MapVersions.VersionGuard | utils/src/btreemap.rs:398-422 | below 2^32 insertions a lock taken with the version seen before finds the entry seen before: the recheck of pop_first succeeds and an update hits the key it compared |
| MapMinimality.LeastSince | utils/src/btreemap.rs:352-433 | the key a pop or a peek settles on is at most that of every entry whose slot was valid, with one version, from the start of the winning scan to any point at which the candidate was in hand: the choice, the delete lock, or the check |
| MapMinimality.PopIsLeastOfScan | utils/src/btreemap.rs:356-391 | every pop and peek has a winning scan and a choice that ended it, and is least among the entries that stayed valid between those two |
| MapMinimality.PopIsLeastAtLock | utils/src/btreemap.rs:388-398 | every pop has a delete lock, and is least among the entries that stayed valid from the start of its winning scan to that lock |
| MapMinimality.PopIsLeast | utils/src/btreemap.rs:400-416 | at the check, in terms of the slots recorded as unchanged since the scan began |
| MapMinimality.PopIsLeastThroughout | utils/src/btreemap.rs:400-416 | the special case of an entry that stayed valid up to the check |
| MapMinimality.NothingThroughout | utils/src/btreemap.rs:425-428 | when the scan of a pop or a peek finds no candidate, no slot stayed valid, with one version, through that scan |
| MapCounter.CounterThroughout | utils/src/btreemap.rs:294-296 | in every state of every run the length word is, modulo the word size, occupied slots less inserters yet to count plus removers yet to count |
| MapCounter.CounterAtRest | utils/src/btreemap.rs:436-455 | with all threads idle the length word is the exact count |
| MapBounded.EveryOperationEnds | utils/src/btreemap.rs:229-475 | whatever other threads do, an operation has returned after a number of its own steps bounded in the number of slots |
| MapBounded.GivesUpLast | utils/src/btreemap.rs:352-355 | a pop that gives up although it had a candidate has searched the slots 16 times, an insertion that finds no slot once for every slot |
| MapLone.LoneExact | utils/src/btreemap.rs:229-475 | on a table at rest, an uninterrupted insertion, peek, pop or clear does what it does on a finite map: a new key needs room, a peek or pop answers with the least entry, or nothing exactly for the empty map |
| MapDistinct.RestingGood | utils/src/btreemap.rs:279-298 | with distinct keys the table at rest is such a table in every run |
| Ordering.MinIndexLeast | utils/src/btreemap.rs:168-190 | the left-to-right search ends with a least key, and among equal keys with the earliest insertion |
| SlotTable.PackRoundTrip | utils/src/btreemap.rs:66-122 | packing a state and a 32-bit version into a word loses nothing, fits 64 bits, and is zero exactly for the empty slot |
| SlotTable.DictSize | utils/src/btreemap.rs:447-455 | the number of keys is the number of occupied slots |
| SlotTable.Stored | utils/src/btreemap.rs:250-266 | writing an entry into a free slot for a new key, or over the slot of its key, updates the map at that key and keeps keys unique |
| SlotTable.Cleared | utils/src/btreemap.rs:411-414 | emptying a slot removes exactly its key |
| SlotTable.SnapshotLeast | utils/src/btreemap.rs:307-347 | the least candidate of an undisturbed scan is the entry with the least key, and there is none exactly when the map is empty |
| SlotMap.SortedMap.TryUpdate | utils/src/btreemap.rs:236-276 | phase 1 replaces the entry of a key that is there and returns its old value, and otherwise changes nothing |
| SlotMap.SortedMap.TryAdd | utils/src/btreemap.rs:279-298 | phase 2 adds a new key exactly when there is a free slot |
| SlotMap.SortedMap.Insert | utils/src/btreemap.rs:229-303 | fails exactly for a new key in a full table; an update returns the old value; the map is updated at that key |
| SlotMap.SortedMap.Collect | utils/src/btreemap.rs:356-386 | the scan collects one candidate for each entry |
| SlotMap.SortedMap.FindMinBy | utils/src/btreemap.rs:168-190 | the loop finds the candidate that the recursive search defines |
| SlotMap.SortedMap.FirstKeyValue | utils/src/btreemap.rs:307-347 | returns an entry with the least key, or nothing exactly for the empty map |
| SlotMap.SortedMap.PopFirst | utils/src/btreemap.rs:352-433 | removes and returns an entry with the least key, or nothing exactly for the empty map |
| SlotMap.SortedMap.Len | utils/src/btreemap.rs:441-443 | the counter is the number of keys |
| SlotMap.SortedMap.ExactLen | utils/src/btreemap.rs:447-455 | the scan counts the keys |
| SlotMap.SortedMap.Clear | utils/src/btreemap.rs:458-477 | empties the map and the counter |
| SlotMap.SortedMap.Drain | utils/src/btreemap.rs:606-616 | popping until nothing is left yields every entry once, keys strictly ascending |
| SchedTheorems.StepKeeps | vsched/src/sched.rs:71-270 | every step of every CPU keeps the placement invariant |
| SchedTheorems.InitHolds | vsched/src/api.rs:44-47 | the boot states satisfy it |
| SchedTheorems.CurrentOnce | vsched/src/sched.rs:186-217 | in every reachable state a task is current on at most one CPU |
| SchedTheorems.ReadyOnce | vsched/src/sched.rs:71-107 | a spawned Ready task other than an idle task is in exactly one ready queue or hand, once; every other task is in no queue |
| SchedTheorems.AssertionsHold | vsched/src/sched.rs:150-184 | the is_running and is_ready assertions never fail, and the switch after a block or an exit finds another task |
| SchedTheorems.ExitedForever | task_management/src/sched.rs:70-84 | an exited task stays exited under every step |
| SchedLife.LifeCycle | vsched/src/sched.rs:71-184 | in reachable states a task goes from Running to Ready, Blocked or Exited exactly when it yields, blocks or exits, from Blocked to Ready exactly when a wakeup wins, from Ready to Running exactly when the CPU that picked it goes on; no other change of state happens |
| SchedLife.QueueChanges | vsched/src/sched.rs:71-107 | every queue changes by exactly the tasks that a spawn, a yield or a wakeup puts there and a pick takes out |
| SchedLife.SetsOut | vsched/src/sched.rs:71-127 | a yield sets out for the caller's own queue and a won wakeup for the one asked for; nothing else does |
| SchedLife.WokenIsQueued | vsched/src/sched.rs:71-127 | in every run a blocked task that is woken becomes Ready, and is in the queue asked for as soon as the CPU that may still be leaving it has taken six steps and then the waker two |
| SchedLife.StaysInHand | vsched/src/sched.rs:71-107 | in every run a task on its way into a queue stays in the hand of its CPU until it is in that queue |
| SchedLife.YieldedIsQueued | vsched/src/sched.rs:150-157 | in every run a task that yields is in its own CPU's queue after the next step of that CPU |
| SchedLife.PickedRuns | vsched/src/sched.rs:186-229 | in every run a task that a CPU has picked runs there within five steps of that CPU |
| SchedLife.WakerReturns | vsched/src/sched.rs:85-107 | a waker goes on where it was, in user code or with the joiners of its exit |
| SchedLife.StopsRunning | task_management/src/sched.rs:48-84 | a task that blocks makes way for the next one, a task that exits wakes its joiners first |
| SchedLife.ChoicesExact | vsched/src/sched.rs:150-217 | a running task can yield, wake and spawn, block unless it is an idle task, exit unless it is an idle or boot task; any queued task, and the idle task, can be picked |
| SchedHandshake.Handshake | vsched/src/sched.rs:85-100 | a woken task about to be enqueued is in use on no CPU, a task about to be switched to on no other CPU, and `on_cpu` is set exactly while some CPU uses the task |
| SchedHandshake.AwaitedIsLeaving | vsched/src/sched.rs:97-99 | a waker spins only on another CPU that is on its way out of the woken task and does not spin itself |
| SchedHandshake.AwaitedAdvances | vsched/src/sched.rs:186-229 | each step of the awaited CPU brings it nearer to having left |
| SchedHandshake.OthersDoNotMoveIt | vsched/src/sched.rs:186-229 | steps of other CPUs do not move the awaited CPU |
| SchedProgress.SpinIsBounded | vsched/src/sched.rs:97-99 | in every run a waker waits for one other CPU, and once that CPU has taken six steps the woken task is unmarked, and stays so until the waker goes on |
| SchedHandshake.TakePrevExact | vsched/src/sched.rs:189-229 | at a recovery point the take as written finds a previous task and leaves every running task marked if and only if the switch before changed the task |
| SchedHandshake.SelfSwitchHappens | vsched/src/sched.rs:189-191 | the other case is reachable: a run of one CPU that switches to itself |
| SchedStacks.OneStackPerCpu | task_management/src/task.rs:105-182 | in every reachable state each CPU has created at most one coroutine stack, which is pooled or with the coroutine it runs or is leaving; the take at a handover succeeds; a coroutine on no CPU has no stack |
| SchedStacks.HandoverStacks | task_management/src/task.rs:163-180 | handing the stack to the next coroutine, or pooling it, keeps that |
| SchedStacks.SwitchStacks | base_task/src/task.rs:348-359 | giving the next task a stack from the pool, or a new one, keeps that |
| SchedStacks.NeverStuck | vsched/src/sched.rs:150-270 | at every code position of every reachable state a CPU can take a step: the stack and the previous task are there to be taken |
| JoinTheorems.NoThreadMissesExit | task_management/src/wait_queue.rs:81-95 | once notify_all has finished, no thread is blocked or queued on the exited task in any reachable state, and with threads only the queue is empty |
| JoinTheorems.StrandedForGood | task_management/src/wait_queue.rs:102-115 | a joiner left asleep stays so under every step but a stray wakeup of it |
| JoinTheorems.StrandsExactlyCoroutines | task_management/src/wait_queue.rs:102-115 | a joiner can be left asleep on an exited task if and only if it is a coroutine, whoever else joins |
| JoinReturns.ReturnsAfterExit | task_management/src/task_inner_ext.rs:239-250 | in every reachable state a joiner, thread or coroutine, that is past its wait joins a task that has exited; one that has returned runs, is unmarked and has left the queue, unless the notifier is just emptying it |
| JoinReturns.ThreadsReturn | task_management/src/wait_queue.rs:81-95 | in every run, once notify_all has finished, a thread has returned after seven steps of its own |
| JoinReturns.TestExact | task_management/src/wait_queue.rs:81-95 | a joiner that tests its condition goes on if and only if the task has exited |
| JoinReturns.MarkExact | task_management/src/wait_queue.rs:36-43 | before notify_all begins and after it, a joiner outside the critical section is marked if and only if it is queued |
| JoinReturns.MovesExactly | task_management/src/wait_queue.rs:81-115 | a joiner can move unless it waits for the lock or for a wakeup |
| JoinReturns.HolderMoves | task_management/src/wait_queue.rs:135-139 | in every reachable state whoever holds the lock can move |
| WaitQueues.AllWoken | task_management/src/wait_queue.rs:135-139 | a queue of distinct blocked tasks is woken whole, in order |
| WaitQueues.NobodyLeft | task_management/src/wait_queue.rs:121-139 | whatever is queued, its blocked tasks become ready and nobody else is touched |
| WaitQueues.WaitQueue.Block | task_management/src/sched.rs:48-57 | the caller is blocked, marked and last in the queue |
| WaitQueues.WaitQueue.NotifyOne | task_management/src/wait_queue.rs:121-129 | takes out the first task and wakes it exactly if it is blocked; fails exactly on an empty queue |
| WaitQueues.WaitQueue.NotifyAll | task_management/src/wait_queue.rs:135-139 | empties the queue, waking its blocked tasks in order, and clears exactly their marks |
| WaitQueues.WaitQueue.NotifyTask | task_management/src/wait_queue.rs:145-153 | takes out the first occurrence of the given task; fails exactly if it is not queued |
| WaitQueues.WaitQueue.Requeue | task_management/src/wait_queue.rs:166-177 | moves the first tasks, in order, to the back of the target, which may be the queue itself; none is lost or doubled |
| WaitQueues.WaitQueue.CancelEvents | task_management/src/wait_queue.rs:36-43 | a task still marked leaves this queue and loses its mark |
| WaitTheorems.EveryNotificationWakes | task_management/src/wait_queue.rs:121-153 | in every run without stray wakeups, whatever is requeued, a task that a notification takes out was blocked and becomes ready |
| WaitTheorems.NotificationTakes | task_management/src/wait_queue.rs:121-153 | a notification is possible if and only if the task is queued; it takes out that entry, clears the task's mark, wakes it if it is blocked, and touches nothing else |
| WaitTheorems.RequeueMoves | task_management/src/wait_queue.rs:166-177 | draining and delivering moves the first tasks, in order, to the back of the target, which may be the queue itself, and changes no task |
| WaitTheorems.SwallowsExactlyWithStrays | task_management/src/wait_queue.rs:121-129 | a queue can come to have an unblocked task first and a blocked one behind it if and only if there are stray wakeups |
| WaitTheorems.OutlivesExactly | task_management/src/wait_queue.rs:36-43 | an entry can outlive its task's cancel_events if and only if there are stray wakeups and either tasks are requeued or waits block again in a loop |
| CfsModel.ReniceKeepsVruntime | scheduler/src/cfs.rs:76-84 | changing the nice value does not change the virtual runtime |
| CfsModel.StepAgrees | scheduler/src/cfs.rs:194-240 | every operation keeps the index agreement |
| CfsModel.IndexAgreement | scheduler/src/cfs.rs:194-240 | over every run in which the tasks fit the queue, each ready key is its task's virtual runtime and id, ids are unique and below the pool, and the recorded minimum is missing or 0 |
| CfsModel.MinimumIsBound | scheduler/src/cfs.rs:194-208 | the recorded minimum is a lower bound for every task, ready, running or blocked |
| CfsModel.PickIsLeast | scheduler/src/cfs.rs:210-216 | the task picked has the least virtual runtime, and among equals the smallest id |
| CfsModel.PutIsLast | scheduler/src/cfs.rs:218-222 | a task put back gets a larger id than every queued task, so equals are served in order |
| CfsModel.PutQueues | scheduler/src/cfs.rs:218-222 | a task put back is queued if and only if there was room for it |
| CfsModel.AddFilesExactly | scheduler/src/cfs.rs:194-203 | a task added is filed under its virtual runtime if and only if its past running time weighs nothing |
| CfsModel.AddEntersAtZero | scheduler/src/cfs.rs:194-208 | a task added enters at 0, and 0 is recorded as the minimum |
| CfsModel.AddQueues | scheduler/src/cfs.rs:194-203 | a task added is queued if and only if there was room for it, and no other task moves |
| CfsModel.PutLeavesOthers | scheduler/src/cfs.rs:218-222 | putting a task back moves no other task into or out of the queue |
| CfsModel.PickTakes | scheduler/src/cfs.rs:210-216 | a pick takes out exactly the task it answers with, and answers nothing if and only if the queue is empty |
| CfsModel.TickAsksExactly | scheduler/src/cfs.rs:224-231 | a tick asks for a reschedule if and only if some task waits and the running one is past 0; until then no queued task is behind it |
| CfsModel.PriorityExact | scheduler/src/cfs.rs:233-240 | a priority change is accepted if and only if the value is from -20 to 19; it sets the nice value and keeps the virtual runtime and every other task; refused, it changes nothing |
| CfsScheduler.CFScheduler.constructor | scheduler/src/cfs.rs:176-182 | a new scheduler is empty, with no minimum on record |
| CfsScheduler.CFScheduler.AddTask | scheduler/src/cfs.rs:194-208 | run over the slot array, leaves queue, minimum, ids and task fields exactly as the policy model says, loss from a full queue included |
| CfsScheduler.CFScheduler.PickNextTask | scheduler/src/cfs.rs:210-216 | run over the slot array, takes out the least key of the model's queue and answers with its task |
| CfsScheduler.CFScheduler.PutPrevTask | scheduler/src/cfs.rs:218-222 | run over the slot array, files the task under its virtual runtime and the next id as the model does |
| CfsScheduler.CFScheduler.TaskTick | scheduler/src/cfs.rs:224-231 | counts the tick and asks for a reschedule exactly when the model does: something is queued and the task is past the recorded minimum |
| CfsScheduler.CFScheduler.ChangePriority | scheduler/src/cfs.rs:233-240 | answers true if and only if the value is from -20 to 19; then the task has that nice value and its old virtual runtime, else nothing changes |
| CfsFairness.WeightAntitone | scheduler/src/cfs.rs:29-36 | a larger nice value never has a larger weight, so the largest one in use bounds the growth per tick |
| CfsFairness.TickStep | scheduler/src/cfs.rs:63-70 | a tick moves a virtual runtime up, by at most 1024 over the least weight, rounded up |
| CfsFairness.StepFair | scheduler/src/cfs.rs:210-240 | ticks, yields, departures and priority changes keep the running task minimal and the others within the bound |
| CfsFairness.Fairness | scheduler/src/cfs.rs:194-240 | for tasks added up front that fit the queue, at every point of every run in which no task joins later, be it added or woken, the running task has the least virtual runtime and any two live tasks differ by at most 69, or 1 if no positive nice value is asked for |
| CfsTightness.BoundAttained | scheduler/src/cfs.rs:194-240 | a run of two tasks at nice 19 that ends with their virtual runtimes exactly 69 apart, so the bound cannot be improved |
| CfsArrivals.ArrivalExact | scheduler/src/cfs.rs:194-208 | live tasks within a bound of each other are so after a task was added to a busy CPU if and only if none of them has run further than the bound |
| CfsArrivals.ArrivalThenTickExact | scheduler/src/cfs.rs:224-231 | they are so after the tick that follows if and only if none of them has run further than the bound by then |
| CfsArrivals.WakeExact | scheduler/src/cfs.rs:218-222 | live tasks within a bound of each other are so after a task was woken on a busy CPU if and only if all of them are within the bound of its virtual runtime |
| CfsArrivals.OpenFairness | scheduler/src/cfs.rs:194-240 | in every run in which tasks are added late, block, run elsewhere and are woken, each time after checking the condition of ArrivalExact or WakeExact, for the running task with a tick to spare, any two live tasks are within the bound throughout |
| CfsArrivals.LiveExactly | scheduler/src/cfs.rs:194-240 | whatever happens, a task is live until it blocks or exits, and becomes live only when it is added or woken |
| CfsShares.TimeCounted | scheduler/src/cfs.rs:90-92 | while a task's priority stays, and it is neither added anew nor run elsewhere, its ticks are counted in `delta` |
| CfsShares.WeightedShares | scheduler/src/cfs.rs:63-70 | over any stretch of a run that keeps a bound, with tasks blocking, woken and added, the ticks of two tasks that are live at its ends and undisturbed in between go by their weights, up to twice the bound plus two |
| CfsWeights.StepRatio | scheduler/src/cfs.rs:29-36 | one nice step changes the weight by a factor between 6/5 and 32/25, and nice 0 weighs 1024 |
| CfsWeights.WeightRatio | scheduler/src/cfs.rs:29-36 | d nice steps change it by the d-th power of 5/4, up to a factor 103/97 |
| CfsWeights.NiceShares | scheduler/src/cfs.rs:63-70 | over any such stretch a task d nice steps above another gets that multiple of its ticks, between 6/5 and 32/25 for one step, up to the slack of the fairness bound |
| CfsShares.LateArrivalGap | scheduler/src/cfs.rs:194-200 | without the check no bound holds: for every n there is a run after which a task added late is n behind the running one |
| CfsShares.WakeupGap | scheduler/src/cfs.rs:218-222 | nor for wakeups: for every n there is a run in which a task added up front blocks and is n behind when it is woken |
| RoundRobin.RRScheduler.constructor | scheduler/src/round_robin.rs:126-130 | a new scheduler is empty and every slice full |
| RoundRobin.RRScheduler.AddTask | scheduler/src/round_robin.rs:142-144 | run over the ring deque, appends to the model's queue unless it is full, whatever weak compare-and-swaps fail |
| RoundRobin.RRScheduler.PickNextTask | scheduler/src/round_robin.rs:146-148 | run over the ring deque, takes the first of the model's queue |
| RoundRobin.RRScheduler.PutPrevTask | scheduler/src/round_robin.rs:150-157 | on preemption with a slice left the task keeps it and goes to the front, else it gets a full slice and goes to the back; a full queue loses it |
| RoundRobin.RRScheduler.TaskTick | scheduler/src/round_robin.rs:159-162 | uses up one tick of the slice and asks for a reschedule if and only if none is left |
| RoundRobinWaiting.TickCredit | scheduler/src/round_robin.rs:159-162 | while a task waits, a tick uses up one of the ticks others may take before it |
| RoundRobinWaiting.EventCredit | scheduler/src/round_robin.rs:142-157 | no other event adds to them, unless it lets tasks take turns before the waiting one |
| RoundRobinWaiting.BoundedWaiting | scheduler/src/round_robin.rs:142-162 | at any point of any run from the start, the task at queue index k runs before the running task's slice and k full slices are over, with tasks joining only at the back from there on, whatever happens to slices elsewhere |
| RoundRobinWaiting.BoundedWaitingWithJumps | scheduler/src/round_robin.rs:150-157 | a queued task runs before every other task has used up one full slice, even with woken tasks jumping the queue, unless slices also change elsewhere, are longer than a tick, and there are four tasks and four slots |
| RoundRobinWaiting.Starvation | scheduler/src/round_robin.rs:150-157 | in that case, for every n, there is a run in which a queued task waits for n ticks |
| RoundRobinWaiting.WaitingExact | scheduler/src/round_robin.rs:150-157 | for CPUs of any one size a bound on waiting holds for all runs if and only if it is not that case |
| RoundRobinWaiting.SlicesStay | scheduler/src/round_robin.rs:150-162 | over every run a queued slice stays between one tick and a full slice |
| RoundRobinTurns.TurnIsFullSlice | scheduler/src/round_robin.rs:150-162 | over any stretch of a run that a task begins with a full slice and in which it never gives up the CPU, each tick whose number is a multiple of a full slice, and no other, sends it to the back with a full slice |
| RoundRobinTurns.SliceCounts | scheduler/src/round_robin.rs:159-162 | over such a stretch what is left of its slice is a full one less its ticks, modulo a full slice |
| RoundRobinTurns.TickTurn | scheduler/src/round_robin.rs:150-162 | a tick takes one from the slice, and sends the task to the back with a full slice if and only if it was the last |
| RoundRobinTurns.TickSwitches | scheduler/src/round_robin.rs:159-162 | a tick takes the CPU from a task only when no more than that tick was left of its slice |
| RoundRobinTurns.YieldTurn | scheduler/src/round_robin.rs:150-157 | a task that yields goes to the back with a full slice |
| RoundRobinTurns.PreemptTurn | scheduler/src/round_robin.rs:150-157 | a task preempted with a slice left runs on |
| RoundRobinTurns.JoinTurn | scheduler/src/round_robin.rs:142-157 | a task woken with a slice left, for a reschedule, is next; any other task woken or spawned is last with a full slice |

## Left out

- Weak memory orderings: every atomic access is sequentially consistent; back-off loops, pointers and allocation are not modelled.
- Lock-freedom of the deque, and what a failure of a deque or map operation means while other threads interfere: a stale snapshot may report full or empty wrongly.
- A deque of capacity 0: its index arithmetic is undefined in the source, so the model asks for at least one slot.
- Concurrent inserts of the same key: two of them can both take an empty slot, so unique keys are stated for one thread, and for runs with distinct keys, only.
- Version wrap-around: `MapVersions` and the distinct-key theorems of `MapDistinct` stop at 2^32 insertions; the 64-bit insertion counter itself never wraps.
- `MapMachine` copies or compares an entry in one step; a read that may race with a writer yields an arbitrary entry.
- SlotMap.SortedMap.PopFirst: one round instead of up to 16, because with one thread the lock and the checks of the first round succeed; the arrays of slot words and entries are one array of pairs.
- RingDeque.Deque.PopFront: the answer for an EMPTY front slot, which with one thread never occurs.
- Ready-queue overflow in the state machine and in the policy runs: live tasks are assumed to fit, since the source ignores the result of a failed insertion; the policy classes do model the loss.
- `SchedMachine` takes the previous task once per switch that changed the task; the take after a self-switch is covered by SchedHandshake.TakePrevExact only.
- `SchedMachine` leaves the choice of the next task to the ready queue: policies are modelled apart from it.
- Futures that return pending without setting the task state, and the waker path: a coroutine that gives up the CPU does so through the yield, exit and block futures.
- `migrate_entry`, the public `switch_to`, timers, interrupts, preemption of coroutines, thread-local storage and the FIFO policy.
- The exit code a concurrent joiner reads, and reference counts of tasks.
- The word size of virtual runtimes and time slices: they are unbounded integers.
- CfsFairness.Fairness: stated for runs that no task joins later; with late additions and wakeups, CfsArrivals.OpenFairness states the bound, but not that the running task is least.
- CfsShares.WeightedShares: stated for stretches in which the two tasks' priorities stay; across a change, only the bound of CfsArrivals.OpenFairness is stated.
