# MiniRTOS: a verified model of the kernel

MiniRTOS keeps its whole state in intrusive linked lists, counters and rings that are changed in place. This project
models the kernel's calls in Dafny twice. One form is in place: classes whose fields are the C structures' fields,
with the same walks, links and branches. The other is on plain values. Every method of the first form is proved to
carry out a step of the second, and the promises of the kernel are proved about the second, over every run.

A call is one step, because the code runs it inside a critical section. A blocking call is a step that ends in
`Parked`; another call puts the task back on its ready list, and what the call does when the task runs again is a
step, or a method, of its own.

| file | what it holds |
|---|---|
| `KernelTypes`, `KernelSpec`, `KernelSteps` | tasks, lists and links as values; the steps of the task calls, the tick and the scheduler; the invariant that each step keeps |
| `Effects` | what each kernel call changes: which task gets which fields, where it stands, and that nothing else changes |
| `Kernel` | class `Kernel`: control blocks linked through `next` and `prev`, ready lists, bitmap, blocked list |
| `KernelRuns`, `RoundRobin`, `Delays`, `Resumes` | runs: one list per task, the scheduler's choice, bounded waiting, exact delays, what a parked caller finds when it runs again |
| `WaitLists`, `Semaphores`, `EventGroups`, `Bits` | priority-ordered wait lists, counting semaphores, event groups; words bit by bit |
| `MutexSpec`, `Mutexes`, `MutexRuns` | priority inheritance over runs; the mutex object on the kernel; runs of the two together |
| `HeapSpec`, `Heap4` | the heap-4 allocator: block list and accounting; headers inside the pool they describe |
| `TimerSpec`, `TimerRuns`, `Timers` | the timers' delta list, when timers fire, the linked timer objects |
| `QueueSpec`, `Queues`, `Slots` | message queues: first in, first out; the byte ring |
| `PoolSpec`, `MemPools` | fixed-size block pools; the free list inside the free blocks |

In the classes an abstract state is a ghost argument: `Rep(s)` says that the pointers represent `s`, and a method that
starts in `Rep(s)` ends in `Rep` of the step it carries out. Methods that use the same list share one implementation
(`BlockOn`, `Wake`) where the C files repeat `prv_block_task` and `prv_unblock_task`.

## Where the code does something else than it promises

The model follows the code. Each of these is a proved statement:

- A running task whose priority is changed stays on the ready list of its old priority
  (`KernelSteps.SetPriorityInvIff`; `KernelRuns.InvAlongIff` over runs), and so does the caller that unlocks a boosted
  mutex (`Mutexes.UnlockInvIff`; `MutexRuns.InOrderIff` over runs; `MutexRuns.BoostedUnlockReachable` is such a run).
- A notification wait that timed out leaves its reason behind (`Delays.TimeoutLeavesReason`), so that a later
  `os_task_delay` can be cut short by a notification (`Delays.DelayCutShort`).
- `os_task_delay_until` meets its deadline only while that is within half a turn of the tick counter
  (`Delays.DelayUntilExact`).
- Payloads of the heap are aligned exactly when the header size is a multiple of the alignment; the header has 12
  bytes on the 32-bit targets (`HeapSpec.AlignedIff`). The free counter loses a header whenever a block that is given
  back has a free neighbour, and is right in every state of a run exactly if that never happens
  (`HeapSpec.FreeCountsIff`, `HeapSpec.FreeSizeExactIff`); one block handed out and given back is enough
  (`HeapSpec.LagReachable`).
- A timer behind two or more others can be late (`TimerSpec.OnTimeIff`): of three started in the order of their
  periods the last is late by the period of the first (`TimerRuns.LateReachable`). Removing a timer disturbs the others
  when two entries do not fit into 32 bits together (`TimerSpec.RemoveExactIff`; `TimerRuns.KeepsTimeIff` over runs);
  `TimerRuns.DisturbanceReachable` is a run to such a list, from which a stop brings a timer forward by 2^32 ticks.
- With several mutexes a boost can outlive the mutex it was for (`MutexSpec.IdleAtBaseIff` says exactly when), and an
  owner can be less urgent than a waiter (`MutexSpec.NestedInheritanceIff` says exactly when).
- A queue call told Ok has moved an item exactly if it could do so when it was made (`QueueSpec.OkMovesIff`): one that
  had to block is told Ok all the same (`QueueSpec.WokenReceiverGetsNothing`, `QueueSpec.WokenSenderDeliversNothing`).
  No wait on a synchronisation object ever times out (`Resumes.NobodyTimesOut`).
- Starting a timer that is still on the expired list cuts that list, with one exception
  (`Timers.TimerService.Start`): `Timers.StartLosesExpired` makes the calls, and another timer is never called.
- A timer that reloads cuts the active list when it expires, unless it is then the last on it and nothing else has
  expired (`Timers.TimerService.Expire`).
- Freeing a pool block twice makes the free list endless (`MemPools.DoubleFreeNeverEnds`), a block size close to 2^32
  makes blocks too small (`PoolSpec.StrideIsLeast`), and a buffer that ends before its first aligned address gives a
  pool outside it (`MemPools.Pool.Create`).

## Model

| member | source | states |
|---|---|---|
| `KernelRuns.OneListPerTask` | kernel/task.c:190-237 | In every run of every modelled call a task is on a list exactly when its own state and priority name that list, once, and a suspended task is on none |
| `KernelRuns.RunInv` | kernel/task.c:190-237 | The placement invariant survives every run from any state that has it |
| `KernelSteps.StepInv` | kernel/task.c:450-515 | Every single call keeps the placement invariant |
| `KernelSteps.SetPriorityInvIff` | kernel/task.c:543-563 | A priority change keeps the invariant if and only if the task is not RUNNING or keeps its priority |
| `KernelRuns.InvAlongIff` | kernel/task.c:543-563 | Over every run, priority changes of RUNNING tasks included, the invariant holds in every state if and only if none of those changes is a real one |
| `Effects.CreateEffect` | kernel/task.c:256-355 | The new task's fields, its place at the end of its ready list, and nothing else changed |
| `Effects.SuspendEffect` | kernel/task.c:450-472 | A READY or RUNNING task becomes SUSPENDED and is on no list; any other is left alone |
| `Effects.ResumeEffect` | kernel/task.c:474-491 | A SUSPENDED task becomes READY and the last of its ready list, all other tasks and orders as before; nothing changes if it was not SUSPENDED |
| `Effects.SuspendResume` | kernel/task.c:450-491 | Suspending and resuming a task puts it behind the others of its priority and changes nothing else |
| `Effects.SetPriorityEffect` | kernel/task.c:543-563 | A READY task goes to the end of its new list, whether more or less urgent; any other gets the field only |
| `Effects.DelayEffect` | kernel/task.c:493-515 | Zero ticks change nothing; otherwise the caller is BLOCKED with these ticks and first on the blocked list |
| `Effects.TickLists` | kernel/task.c:603-639 | The tasks whose last tick it is go to the ends of their ready lists in the order of the blocked list, and the others stay in order |
| `Effects.SelectEffect` | kernel/scheduler.c:133-184 | A selection leaves the blocked list and the wait lists alone, and does nothing when nobody is ready |
| `Effects.NotifyEffect` | kernel/notify.c:17-48 | The value is stored; exactly a task BLOCKED with the notification reason goes to the end of its ready list |
| `Effects.NotifyWaitEffect` | kernel/notify.c:74-110 | A pending value is taken; otherwise a wait without timeout changes nothing and any other goes first on the blocked list, a wait for ever with no ticks |
| `Effects.ParkEffect` | kernel/semaphore.c:24-55 | The caller is BLOCKED on the wait list, behind everybody as urgent and in front of everybody less so, with reason and timeout |
| `Effects.ReleaseEffect` | kernel/semaphore.c:60-93 | The waiter leaves the wait list and is the last of its ready list, waiting for nothing |
| `KernelSpec.AttachLinks` | kernel/task.c:190-208 | Linking a task in at any position of a list changes the links of that task and of its two new neighbours and nobody else's |
| `KernelSpec.DetachLinks` | kernel/task.c:210-237 | Unlinking closes the gap between the neighbours, leaves the task without links and changes no other link |
| `KernelRuns.SelectsHighest` | kernel/scheduler.c:133-184 | After a selection the current task heads the lowest-numbered non-empty list, it alone is RUNNING, and no ready task is more urgent |
| `KernelRuns.SelectShape` | kernel/scheduler.c:133-184 | A selection moves the head of the top list to its end exactly when it was the current task, and changes no other list |
| `Kernels.TopIsCtz` | kernel/task.c:239-250 | If each bit of the bitmap says whether its list is non-empty, counting trailing zeros finds the top list |
| `RoundRobin.BoundedWaiting` | kernel/scheduler.c:133-184 | While no more urgent task becomes ready, a ready task becomes current after at most as many selections as its measure, whoever arrives, leaves or blocks |
| `RoundRobin.WaitBound` | kernel/scheduler.c:133-184 | That measure is the position in the list or one more, and at most the length of the list |
| `RoundRobin.OthersKeepWait` | kernel/task.c:190-237 | No call but a selection makes a ready task wait longer |
| `Kernels.Kernel.RemoveFromReady` | kernel/task.c:210-237 | The pointer code takes the task off its ready list, with count and bitmap |
| `Kernels.Kernel.MakeReady` | kernel/task.c:190-208 | The pointer code appends the task to the ready list of its priority and makes it READY |
| `Kernels.Kernel.Block` | kernel/task.c:574-585 | Off the ready list and to the front of the blocked list, with the timeout |
| `Kernels.Kernel.RemoveFromBlocked` | kernel/task.c:587-601 | Off the blocked list, which keeps its links |
| `Kernels.Kernel.TaskCreate` | kernel/task.c:256-355 | All error returns, and otherwise the new task at the end of its ready list |
| `Kernels.Kernel.TaskSuspend` | kernel/task.c:450-472 | Carries out the suspend step and keeps the invariant |
| `Kernels.Kernel.TaskResume` | kernel/task.c:474-491 | Carries out the resume step and keeps the invariant |
| `Kernels.Kernel.TaskSetPriority` | kernel/task.c:543-563 | Moves a READY task to its new list; a RUNNING task gets the field but stays on the old list |
| `Kernels.Kernel.TaskDelay` | kernel/task.c:493-515 | Zero ticks return at once, otherwise the caller is on the blocked list with that many ticks |
| `Kernels.Kernel.DelayUntil` | kernel/task.c:517-541 | The new wake tick and the ticks to sleep, in 32-bit arithmetic |
| `Kernels.Kernel.TaskTick` | kernel/task.c:603-639 | The walk that unlinks under its own feet equals the fold over the blocked list |
| `Kernels.Kernel.TickIncrement` | kernel/kernel.c:104-116 | The tick counter wraps at 2^32 and every delay is counted down once |
| `Kernels.Kernel.SelectNextTask` | kernel/scheduler.c:133-184 | Rotation, choice and state changes of one scheduling step |
| `Kernels.Kernel.FindHighestReady` | kernel/task.c:239-250 | Returns the head of the lowest-numbered non-empty ready list, or NULL |
| `Kernels.Kernel.NotifyGive` | kernel/notify.c:17-48 | Stores the value and wakes the task exactly if it is blocked with the notification reason |
| `Kernels.Kernel.NotifyTake` | kernel/notify.c:74-124 | A pending value is returned and cleared; otherwise an error or a park with the timeout |
| `Kernels.Kernel.NotifyResume` | kernel/notify.c:112-124 | When the task runs again: the value if one is pending, which is cleared, and a timeout otherwise |
| `Resumes.MailboxHolds` | kernel/notify.c:17-124 | Over every run what a notification wait would take is the last value given since the task last took one, and nothing if none was given since |
| `Kernels.Kernel.ReturnStatus` | kernel/semaphore.c:169-180 | When a task that had parked on a semaphore, mutex or queue runs again it returns a timeout or Ok, and nothing else happens |
| `Resumes.ParkedIsToldOk` | kernel/semaphore.c:165-180 | Whatever happens after a task parked on an object, with whatever timeout, it returns Ok if it runs again |
| `Kernels.Kernel.ReturnBits` | kernel/eventgroup.c:288-289 | When a task that had parked on an event group runs again it returns the bits stored in it |
| `Delays.SleepsThroughIff` | kernel/task.c:603-639 | Over any run with fewer ticks than a delay or a notification wait has to go, or any run at all for a wait without a timeout, the task sleeps through if and only if no notification comes that its reason heeds |
| `Delays.SleepLasts` | kernel/task.c:603-639 | After n such ticks it has exactly n ticks less to go, and its reason is the same |
| `Delays.WakesOnTheTick` | kernel/task.c:603-639 | Exactly the last tick of a delay or of a notification wait makes the task READY, unless a notification it heeds came before |
| `Delays.EarlyWakeIff` | kernel/notify.c:17-48 | Another call ends a delay if and only if it notifies a task whose reason still says NOTIFY |
| `Delays.StaleReasonReachable` | kernel/notify.c:74-124 | A run is given in which a task carries on with that stale reason |
| `Delays.TimeoutLeavesReason` | kernel/notify.c:74-124 | A notification wait that nobody answers is READY on its last tick with the notification reason left behind |
| `Delays.DelayCutShort` | kernel/task.c:493-515 | From there its next delay ends with a notification |
| `Delays.DelayUntilExact` | kernel/task.c:517-541 | The ticks slept are max(0, deadline - now) in unbounded time if and only if the deadline is less than 2^31 ahead, or at most 2^31 behind modulo 2^32 |
| `Delays.ScheduleNeverDrifts` | kernel/task.c:517-541 | After k calls the wake tick is start + k * period modulo 2^32 |
| `Delays.PeriodicWake` | kernel/task.c:517-541 | A task that is on time becomes READY on the tick of its deadline, across wrap-around, and sleeps until then, unless a notification it heeds comes |
| `Delays.EveryPeriodOnTime` | kernel/task.c:517-541 | Every call of a schedule begun at start, the k-th made less than half a turn early, makes the task READY on tick start + k * period of unbounded time |
| `WaitLists.InsertKeepsOrder` | kernel/semaphore.c:24-55 | The insertion loop keeps a wait list ordered by priority, first come first served among equals |
| `WaitLists.OthersKeepWaiters` | kernel/semaphore.c:24-93 | No call about something else changes a wait list or what its members wait for |
| `WaitLists.ForeignOnlyFewer` | kernel/semaphore.c:24-93 | No call at all but a park on the list itself adds a waiter to it or changes a waiter's condition |
| `Kernels.Kernel.BlockOn` | kernel/semaphore.c:24-55 | The caller leaves its ready list and stands in the wait list before the first less urgent waiter |
| `Kernels.Kernel.Wake` | kernel/semaphore.c:60-93 | The waiter leaves the wait list, loses its blocking fields and is appended to its ready list |
| `Semaphores.Semaphore.CreateCounting` | kernel/semaphore.c:108-119 | The error cases, and otherwise a semaphore with that count and maximum and an empty wait list |
| `Semaphores.Semaphore.Take` | kernel/semaphore.c:145-181 | Count down, error, or park, on the object and on the kernel |
| `Semaphores.Semaphore.Give` | kernel/semaphore.c:202-239 | Hand-off to the first waiter, else count up, else full |
| `Semaphores.UnitsAreConserved` | kernel/semaphore.c:145-239 | Over every run of calls on the semaphore and of any other call but a park on its own list, priority changes and boosts of waiters included, initial + gives = grants + count, 0 <= count <= max, and nobody waits while the count is positive |
| `Semaphores.TakeServedIff` | kernel/semaphore.c:145-181 | In every reachable state a take succeeds if and only if initial + gives - grants is positive, and then takes one; otherwise it is refused without a timeout and parks its caller with one |
| `Semaphores.GiveRefusedIff` | kernel/semaphore.c:202-239 | In every reachable state a give is refused if and only if nobody waits and initial + gives - grants is the maximum; it wakes the first waiter if there is one, and otherwise adds a unit that the next take gets |
| `Semaphores.GiveServesFirstInOrder` | kernel/semaphore.c:202-239 | In every run that leaves its waiters' priorities alone a unit goes to the waiter of highest priority that has waited longest among its equals, and the count stays |
| `EventGroups.NoLostWakeup` | kernel/eventgroup.c:131-178 | In every reachable state no waiter's condition holds, bit by bit, whatever other calls do, priority changes and boosts of waiters included |
| `EventGroups.SetBitsNoneMet` | kernel/eventgroup.c:131-178 | After setting bits none is left, although bits are cleared while the list is walked |
| `EventGroups.SweepServes` | kernel/eventgroup.c:131-178 | Each waiter is left exactly as it was or woken with bits that meet its condition, and no other task is touched |
| `EventGroups.SweepWakesFirst` | kernel/eventgroup.c:131-178 | The first waiter in list order whose condition holds is woken and sees all the bits |
| `EventGroups.SweepBroadcasts` | kernel/eventgroup.c:131-178 | If no waiter clears on exit, exactly those are woken whose condition holds of the bits set |
| `EventGroups.SweepShrinks` | kernel/eventgroup.c:131-178 | A bit cleared by a woken waiter does not come back within the call |
| `EventGroups.SetWakesIff` | kernel/eventgroup.c:131-178 | A waiter is woken if and only if the bits left by those before it satisfy it: all wanted bits on with WAIT_ALL, some wanted bit on without; and it is told those bits |
| `EventGroups.SetLeavesBits` | kernel/eventgroup.c:131-178 | At the end a bit is on if and only if it was on or set now and no waiter that was woken with clear-on-exit wanted it |
| `EventGroups.MetIff` | kernel/eventgroup.c:82-92 | The test of the code, on words, is the condition bit by bit |
| `EventGroups.WaitEffect` | kernel/eventgroup.c:244-290 | A wait returns at once if and only if its condition holds bit by bit, clearing the wanted bits on request and no other; otherwise it changes nothing or parks its caller with the condition |
| `EventGroups.ClearEffect` | kernel/eventgroup.c:222-231 | Exactly the named bits go off |
| `EventGroups.EventGroup.Set` | kernel/eventgroup.c:131-178 | The loop over the linked list equals the fold over the waiters |
| `EventGroups.EventGroup.Wait` | kernel/eventgroup.c:244-290 | A met condition returns the bits and clears on request; otherwise an error or a park with the condition stored |
| `EventGroups.ClearKeepsInv` | kernel/eventgroup.c:222-231 | Clearing any bits makes no waiter's condition true |
| `EventGroups.WaitReturnsMetBits` | kernel/eventgroup.c:244-290 | Over every run, a caller that had to wait returns, when it runs again, bits that met its own condition, whatever is set, cleared or done by others in between |
| `MutexSpec.InheritanceHolds` | kernel/mutex.c:82-122 | In every reachable state of one mutex waiters imply an owner, the owner does not wait, its priority is the minimum of its own and of all contending lock calls since it got the mutex, at most that of each waiter, and all others have their own |
| `MutexSpec.HandOff` | kernel/mutex.c:223-267 | The last unlock restores the priority and passes the mutex, held once, to the waiter first in priority order, ties by arrival |
| `MutexSpec.LocksAreCounted` | kernel/mutex.c:168-267 | In every reachable state the mutex has an owner if and only if its successful locks exceed its unlocks since it got it, and what each call then does: acquire, count, refuse, queue, give up one lock, or pass the mutex to the first waiter |
| `MutexSpec.AsManyUnlocksAsLocks` | kernel/mutex.c:189-243 | After n locks of a free mutex fewer than n unlocks leave the owner, and the n-th frees it |
| `MutexSpec.OwnPriorityWheneverIdle` | kernel/mutex.c:168-267 | Over any number of mutexes a task that holds none is at its own priority, if each task gives up last the mutex it acquired first |
| `MutexSpec.IdleAtBaseIff` | kernel/mutex.c:168-267 | In whatever order, a call keeps every task that holds nothing at its own priority if and only if it does not give up its caller's last mutex with a recorded priority other than the caller's own |
| `MutexSpec.OutOfOrderRelease` | kernel/mutex.c:178-188 | A run that releases in the wrong order ends with the priority restored if and only if there was no boost |
| `MutexSpec.NestedInheritanceIff` | kernel/mutex.c:168-267 | Over any number of mutexes every owner is as urgent as all its waiters in every state of a run if and only if each call meets the condition of the next two rows |
| `MutexSpec.LockInheritsIff` | kernel/mutex.c:104-112 | A lock call keeps every owner as urgent as its waiters if and only if, when it boosts, each mutex the boosted owner waits for has an owner as urgent as the caller |
| `MutexSpec.UnlockInheritsIff` | kernel/mutex.c:247-254 | A full unlock keeps it if and only if the recorded priority is as urgent as every waiter of the caller's other mutexes, and the first waiter of this one as the others |
| `MutexSpec.NestedInheritanceLost` | kernel/mutex.c:247-254 | A reachable state in which a full unlock keeps it if and only if task 0 is by itself as urgent as task 1 |
| `Mutexes.Mutex.Lock` | kernel/mutex.c:168-221 | Acquisition, recursion, boost with the owner requeued, error and park, on the object and on the kernel |
| `Mutexes.Mutex.Unlock` | kernel/mutex.c:223-267 | Error, recursion, restore and hand-off for a RUNNING or READY caller; exactly which fields and which lists the kernel is left with |
| `Mutexes.LockEffect` | kernel/mutex.c:168-221 | On the kernel a lock first boosts a less urgent owner, requeued if READY, and then parks a caller that waits; otherwise it changes nothing |
| `Mutexes.UnlockEffect` | kernel/mutex.c:223-267 | On the kernel a full unlock restores the caller's priority and wakes the first waiter; any other unlock changes nothing |
| `Mutexes.UnlockInvIff` | kernel/mutex.c:117-122 | A full unlock keeps the kernel's invariant if and only if the caller was not RUNNING with a boosted priority |
| `MutexRuns.InOrderIff` | kernel/mutex.c:117-122 | Over every run of locks, unlocks and all other calls the kernel's invariant holds in every state if and only if no RUNNING task gives up the mutex while boosted or is given another priority |
| `MutexRuns.BoostedUnlockReachable` | kernel/mutex.c:117-122 | A run from boot to a state in order that an unlock puts out of order |
| `Mutexes.ReleaseCommutes` | kernel/mutex.c:247-254 | Restoring the caller's priority and waking the waiter may change places |
| `HeapSpec.EveryRunTiles` | kernel/heap4.c:75-122 | After every run of alloc, free and realloc the blocks tile the pool, no two free ones are neighbours, free bytes reported = free payload - H * coalesces modulo 2^32, and blocks = 1 + splits - coalesces |
| `HeapSpec.EmptyAgainIsInitial` | kernel/heap4.c:126-144 | Whenever nothing is live the list is again the single initial block |
| `HeapSpec.RoundTrip` | kernel/heap4.c:173-259 | Allocating and freeing the result gives back the same block list, split or not |
| `HeapSpec.AllocSucceedsIff` | kernel/heap4.c:146-202 | An allocation succeeds if and only if something is asked for and the rounded size is at most the largest free block |
| `HeapSpec.AllocHandsOut` | kernel/heap4.c:173-193 | The block handed out is at least the rounded size and less than a header and an alignment unit more; the rest of a larger block is free right behind it, and all other blocks stay |
| `HeapSpec.AllocAddsOne` | kernel/heap4.c:146-202 | An allocation adds its block to the live ones, in its place, and changes no other live block |
| `HeapSpec.FreeTakesOne` | kernel/heap4.c:214-259 | A free, merges included, takes exactly its block from the live ones |
| `HeapSpec.ReallocReplaces` | kernel/heap4.c:261-291 | Of a live block: size 0 frees it; nothing happens if it is large enough or no free block is; otherwise a block from the first fit, bounded as above, replaces it among the live ones |
| `HeapSpec.MinFreeIsLowest` | kernel/heap4.c:195-199 | The minimum reported is the lowest value the free counter had at first or after an allocation |
| `HeapSpec.FirstFit` | kernel/heap4.c:158-163 | The block taken is free, large enough, and every block before it is not |
| `HeapSpec.AlignUpCoversIff` | kernel/heap4.c:41 | The rounded size covers the request if and only if the rounding does not wrap; it is a multiple of the alignment and less than one unit more |
| `HeapSpec.FreeCountsIff` | kernel/heap4.c:214-259 | A free keeps the reported free size equal to the free payload if and only if both neighbours of the block are allocated or missing |
| `HeapSpec.FreeSizeExactIff` | kernel/heap4.c:293-296 | The reported free size is right in every state of a run if and only if no block given back in it, by a free or a reallocation, has a free neighbour |
| `HeapSpec.LagReachable` | kernel/heap4.c:214-259 | After one allocation and its free the reported free size is wrong |
| `HeapSpec.AlignedIff` | kernel/heap4.c:35-41 | In every run all payloads are aligned if and only if the header size is a multiple of the alignment |
| `HeapSpec.FreedCompact` | kernel/heap4.c:96-121 | Freeing closes both gaps it can open and keeps the tiling |
| `Heap4.PayloadHasNoHead` | kernel/heap4.c:35-38 | No byte of a payload belongs to a header or to another payload |
| `Heap4.FreeBlockKeeps` | kernel/heap4.c:173-193 | Whatever is written inside a free block, every live payload stays |
| `Heap4.SplitHeaders` | kernel/heap4.c:173-187 | The headers written by a split spell out the split list, and all other headers still stand |
| `Heap4.SpliceHeaders` | kernel/heap4.c:75-94 | Relinking in address order spells out the list with the block in its place |
| `Heap4.MergeHeaders` | kernel/heap4.c:96-121 | A merge of two headers spells out the merged list |
| `Heap4.PayloadWrite` | kernel/heap4.c:35-38 | A store into one live payload leaves the list and every other payload as they were |
| `Heap4.Pool.constructor` | kernel/heap4.c:126-144 | The pool starts as one free block |
| `Heap4.Pool.Alloc` | kernel/heap4.c:146-202 | NULL or the payload of the first fit, the new block list in memory, the counters, and every live payload unchanged |
| `Heap4.Pool.Free` | kernel/heap4.c:214-259 | The freed and coalesced list in memory, every live payload unchanged, nothing done for NULL or a free block, and the old header left refusing a second free |
| `Heap4.Pool.Realloc` | kernel/heap4.c:261-291 | In place, or moved with the old payload as a prefix of the new one; every other live payload unchanged |
| `Heap4.Pool.LargestFree` | kernel/heap4.c:298-312 | The walk returns the largest free payload |
| `Heap4.Pool.UserWrite` | kernel/heap4.c:35-38 | The owner's stores harm neither the list nor other payloads |
| `TimerSpec.InsertTimes` | kernel/timer.c:46-76 | Insertion leaves every other timer's due time alone, and the new one is due after its period plus all entries strictly before its predecessor |
| `TimerSpec.OnTimeIff` | kernel/timer.c:46-76 | That lateness is zero if and only if at most one timer comes before it |
| `TimerSpec.InsertHealthy` | kernel/timer.c:60-68 | Neither subtraction underflows and the first entry stays positive |
| `TimerSpec.RemoveExactIff` | kernel/timer.c:81-102 | Removal leaves every other timer's due time alone if and only if the two entries fit into 32 bits together |
| `TimerSpec.ExpiresIff` | kernel/timer.c:366-401 | A tick expires exactly the timers due after one tick |
| `TimerSpec.TickTime` | kernel/timer.c:366-401 | It brings every other timer one tick closer |
| `TimerRuns.OneShot` | kernel/timer.c:199-278 | A timer started in any reachable state, or reset or given a new period while active, and left alone fires exactly once, never before that period has passed, and on time if and only if at most one timer comes before it; n timers, periods of at most p ticks and n * p below 2^32 is all that is asked |
| `TimerRuns.StoppedNeverFires` | kernel/timer.c:221-237 | A timer stopped in any such state and left alone never fires |
| `TimerRuns.IdleCalls` | kernel/timer.c:221-278 | On a timer that is not active a stop or a reset does nothing and a new period is only noted |
| `TimerRuns.CalledAsOftenAsFired` | kernel/timer.c:118-134 | Over every run each timer has been called as often as it fired, but for those on the expired list, which the next turn of the service task calls |
| `TimerRuns.FiresWhenDue` | kernel/timer.c:366-401 | In any run without a wrapping removal an active timer left alone is on the list until the tick it is bound to and fires on that tick only |
| `TimerRuns.EveryRunKeepsTime` | kernel/timer.c:46-102 | In every reachable state the entries add up to the ticks the timers are bound to, and the first is positive, with n timers, periods of at most p ticks and n * p below 2^32 |
| `TimerRuns.ModestRuns` | kernel/timer.c:81-102 | In such runs no removal wraps, so none disturbs another timer |
| `TimerRuns.KeepsTimeIff` | kernel/timer.c:46-102 | With no bound on timers or periods, the entries add up to the ticks the timers are bound to in every state of a run if and only if each removal in it fits into 32 bits |
| `TimerRuns.LateReachable` | kernel/timer.c:46-76 | Three timers of periods p <= q <= r started in that order: the last is bound to tick r + p |
| `TimerRuns.DisturbanceReachable` | kernel/timer.c:81-102 | A reachable list from which stopping one timer brings another forward by 2^32 ticks |
| `Timers.TimerService.InsertSorted` | kernel/timer.c:46-76 | The pointer code carries out the insertion |
| `Timers.TimerService.RemoveFromActive` | kernel/timer.c:81-102 | The pointer code carries out the removal, modulo 2^32 |
| `Timers.TimerService.Start` | kernel/timer.c:199-219 | Removal if active, then insertion with the full period; the expired list stays whole if and only if the timer was not on it, or was its last and goes last on the active list |
| `Timers.TimerService.Stop` | kernel/timer.c:221-237 | Removal if active, and inactive afterwards |
| `Timers.TimerService.Reset` | kernel/timer.c:239-256 | Only an active timer is put in again with its full period |
| `Timers.TimerService.ChangePeriod` | kernel/timer.c:258-278 | The error, the new period, and an active timer put in again with it |
| `Timers.TimerService.Tick` | kernel/timer.c:366-401 | The loop moves exactly the expiring timers to the front of the expired list and signals if there are any |
| `Timers.TimerService.Expire` | kernel/timer.c:376-394 | One turn of that loop: a one-shot timer changes lists; one that reloads goes back by its period and has one link for both lists, so that the active list stays whole if and only if it is last there and nothing else had expired |
| `Timers.StartLosesExpired` | kernel/timer.c:199-219 | Two timers expire on one tick, the first on the expired list is started again, and nothing leads to the other any more |
| `Timers.TimerService.Drain` | kernel/timer.c:118-134 | The service task calls every expired timer once, in list order, and leaves the active list alone |
| `QueueSpec.FirstInFirstOut` | kernel/queue.c:185-450 | Over every run the items handed out, followed by those in the queue, are the items accepted, in order, and the bound holds; an overwrite replaces the last item accepted and a reset takes back those not handed out |
| `QueueSpec.SendEffect` | kernel/queue.c:185-244 | With a free slot the item is appended and the first receiver woken; without, the caller is refused or parked and the queue stays |
| `QueueSpec.ReceiveEffect` | kernel/queue.c:349-406 | With an item in the queue the oldest is taken and the first sender woken; without, the caller is refused or parked |
| `QueueSpec.OverwriteEffect` | kernel/queue.c:273-311 | Refused unless the length is one; otherwise the item is what the queue holds, and a receiver is woken exactly if it was empty |
| `QueueSpec.ResetEffect` | kernel/queue.c:165-183 | Refused while anybody waits on either side, otherwise empty |
| `QueueSpec.OkMovesIff` | kernel/queue.c:185-244 | Over every run a send that returned Ok stored its item if and only if there was room at the call, a receive that returned Ok handed out an item if and only if there was one, and every other call was refused with nothing moved |
| `QueueSpec.CallsExplainLedger` | kernel/queue.c:185-450 | Over every run the items accepted and handed out are those that the calls that have returned say they moved, in the order in which they returned; a call still under way has moved none |
| `Resumes.NobodyTimesOut` | kernel/queue.c:389-405 | No call, tick or selection ever sets `timed_out`, so a parked caller returns Ok |
| `QueueSpec.WokenReceiverGetsNothing` | kernel/queue.c:389-405 | A run: the most urgent task receives from an empty queue and parks, another sends, the first runs again and returns Ok with nothing, the item still in the queue |
| `QueueSpec.WokenSenderDeliversNothing` | kernel/queue.c:226-243 | A run: the most urgent task sends to a full queue and parks, another receives, the first runs again and returns Ok, its item stored nowhere |
| `Queues.StepIndex` | kernel/queue.c:197 | Stepping a byte index modulo the buffer size is stepping to the next slot |
| `Queues.RingAfterSend` | kernel/queue.c:194-198 | Writing the slot at tail appends the item and leaves the others byte-identical, across wrap-around |
| `Queues.RingAfterReceive` | kernel/queue.c:358-362 | Moving head drops the oldest item and keeps the others |
| `Queues.Queue.Send` | kernel/queue.c:185-244 | Store and wake, error, or park; head and tail are multiples of the item size below the buffer size and tail is head plus count items |
| `Queues.Queue.Receive` | kernel/queue.c:349-406 | The oldest item byte for byte and a sender woken, error, or park |
| `Queues.Queue.Resume` | kernel/queue.c:234-243 | A parked caller that runs again returns a timeout or Ok and touches nothing |
| `Queues.Queue.Peek` | kernel/queue.c:435-450 | The oldest item, nothing changed |
| `Queues.Queue.Overwrite` | kernel/queue.c:273-311 | Only for queues of length one: the item replaced, or stored with a receiver woken |
| `Queues.Queue.Reset` | kernel/queue.c:165-183 | Refused while anybody waits, else empty |
| `PoolSpec.EveryBlockOnce` | kernel/mempool.c:108-153 | In every run without a double free the free list has no repetition and is exactly the blocks not handed out, and min_free_count is the lowest it ever was |
| `PoolSpec.AllocSucceedsIff` | kernel/mempool.c:108-153 | In every run without a double free an allocation succeeds if and only if not all blocks are handed out, and gives one that nobody holds; the block given back last is the next one given out |
| `PoolSpec.FreeKeepsDistinctIff` | kernel/mempool.c:129-153 | A free keeps the list free of repetition if and only if the block was not on it |
| `PoolSpec.StrideIsLeast` | kernel/mempool.c:45-52 | The stride has room for the user's bytes if and only if the rounding does not wrap, and is then the smallest multiple of the pointer size with room for them and a pointer |
| `MemPools.BlocksApart` | kernel/mempool.c:99-103 | Blocks are disjoint |
| `MemPools.OthersThreaded` | kernel/mempool.c:108-127 | Whatever is written into a block that is not free, the links of the free list survive |
| `MemPools.Pool.constructor` | kernel/mempool.c:87-103 | The loop threads all blocks, last one first |
| `MemPools.Pool.Create` | kernel/mempool.c:56-106 | The error returns, and a pool of as many blocks as the 32-bit difference allows, inside the buffer if and only if the buffer reaches the first aligned address |
| `MemPools.Pool.Alloc` | kernel/mempool.c:108-127 | NULL or the first free block, which nobody holds; no byte of the pool changes |
| `MemPools.Pool.Free` | kernel/mempool.c:129-153 | Refuses NULL, addresses outside and misaligned ones; otherwise only the pointer is written into the block, which is pushed, free already or not |
| `MemPools.DoubleFreeNeverEnds` | kernel/mempool.c:129-153 | After a second free of a block no number of links leads to the end of the list |
| `MemPools.Pool.UserWrite` | kernel/mempool.c:20-23 | A holder's stores never damage the free list |

## Left out

- KernelRuns.OneListPerTask: runs leave out a changed priority of a RUNNING task, which breaks it (`InvAlongIff`), and deletion.
- Kernels.Kernel.TaskCreate: whether the heap has room for the stack and the control block is an argument.
- Kernels.Kernel.TaskTick: the stack high-water mark and the deferred deletion at its end.
- Kernels.Kernel.TickIncrement: the registered tick hooks.
- Task and object deletion, including waking the waiters of a deleted object: a task deleted while BLOCKED stays on its list.
- Finite timeouts on queues, semaphores, mutexes and event groups: the code never counts them down, because waiters are not on the blocked list; such a wait is unbounded here.
- The second half of a blocking call: `Queue.Resume` is a step of the runs of queues. Semaphores and mutexes end in `ReturnStatus`, event groups in `ReturnBits`, neither of which changes anything. A notification wait ends in `NotifyResume`, which acts like the step `DoNotifyWait(0)`, so runs have it already.
- Kernels.Kernel.NotifyTake: the first half only, up to the yield; `NotifyResume` is the second.
- Semaphores.Semaphore.Take: the first half only, up to the yield; `Kernel.ReturnStatus` is the second.
- EventGroups.EventGroup.Wait: the first half only, up to the yield; `Kernel.ReturnBits` is the second.
- The yields at the end of give, set, unlock and send: a scheduling step is a separate call.
- `notify_from_isr` and the `_from_isr` variants of queue, event group and timer calls: the same steps as the modelled calls.
- `notify_clear` and `notify_is_pending`.
- Mutexes.Mutex.Unlock: for a RUNNING caller the wake is carried out before the restore, which `ReleaseCommutes` shows to be the same.
- Mutexes.Mutex.Lock: `lock_count` is unbounded, the C field wraps after 2^32 recursive calls; the half after the yield is `Kernel.ReturnStatus`.
- MutexSpec.OwnPriorityWheneverIdle: the discipline is sufficient, not necessary; the exact condition is the one of `IdleAtBaseIff`, call by call.
- Kernels.Kernel.DelayUntil: computes the schedule and the ticks; the sleep itself is `TaskDelay` with those ticks.
- Sorted wait lists when a waiting task is itself boosted: the list is not re-sorted, so nothing is claimed.
- Timers.TimerService.Tick: requires that no timer that reloads expires; `Expire` says what one turn of the loop does then.
- TimerRuns.OneShot: runs in which a timer is started while still on the expired list are left out; `Timers.TimerService.Start` says what becomes of the lists then.
- TimerRuns.FiresWhenDue: runs with a wrapping removal are left out; `KeepsTimeIff` says that exactly those break the times.
- TimerRuns.EveryRunKeepsTime: the bound on timers times periods is sufficient, not necessary; `KeepsTimeIff` is the exact condition.
- Queues.Queue.constructor: assumes that the product of item size and length fits into 32 bits; the code does not check. The buffer is a fresh array instead of a heap block.
- MemPools.Pool.Create: a buffer within a pointer of the end of the address space, where the aligned address wraps. The pool's memory is a fresh array.
- PoolSpec.EveryBlockOnce: runs with a double free are left out, since the free list is then no list.
- Heap4.Pool.Realloc: requires NULL or the payload of a live block; for a freed one the code trusts the size in the stale header.
- Heap4.Pool.Free: requires NULL or an address that has a header in front of it, live or freed; an arbitrary pointer reads arbitrary memory.
- Headers and stored pointers are single cells followed by cells without content: their byte encoding is not modelled, and the `allocated` byte repeats the top bit of `size`.
- `os_heap_calloc`, the allocation-failure hook and the `heap_initialized` flag.
- The ready bitmap is a sequence of 32 booleans; the scalar fields of a control block are one record.
- NULL object pointers: the calls return an error for them; only NULL task handles are modelled.
- Stacks, stack fill and high-water marks, task names, the idle task and hooks.
- Port layers, PendSV and SysTick, nesting counters of critical sections, tickless idle, trace, statistics, mailbox, watchdog, system information.
