# Verified models of an operating-systems course repository

This Dafny project models the stateful cores of the repository and proves what they promise.
`dafny verify dfyconfig.toml` checks all of it. Each core is on its own; the files of one core share a
prefix or are named below.

**CPU scheduler** (`SchedulerModel`, `Scheduler`, `SchedulerRuns`, `SchedulerTheorems`, `SchedulerChoice`,
`SchedulerReport`; Assignment4).
`Scheduler` is the code: a class whose methods update the globals as the callbacks do. Every callback is
proved to be a function of the old globals (`SchedulerModel`). `SchedulerRuns` puts the scheduler under the
simulator's contract (fresh tids, one tick per time unit, exits and requests by the running thread in the
unit it was given, one I/O start and one completion per request) and adds a ledger that counts units from
where each thread *is*, never from the scheduler's own time stamps. `SchedulerTheorems` compares the two
over all runs of all algorithms; `SchedulerChoice` says when the running thread loses the CPU, and
`SchedulerReport` what the report says. `queue_sort` may leave any ascending order, stable or not; the queue is a
FIFO sequence. The record `malloc` returns is arbitrary.

Two things the code does differently from what one may expect are results here. The recorded waiting time
is not simply the units waited: a thread moved on within a unit that is already charged to the CPU or the
device is credited one unit less, and `TimeIsConserved` says so exactly (turnaround always balances). A
quantum of 0 is never used up, so round robin with it starves everybody but the running thread.

**Kernel** (`KernelModel`, `KernelTheorems`, `KernelEffects`, `KernelFairness`, `Priorities`, `ThreadSystem`;
Lab2). A step is a region with
interrupts off; any thread that is running may take any step, the timer may yield at any point, interrupt
handlers may unblock and up, and donation may rewrite all priorities at any point. So the safety results
hold whatever donation does. `LockModel`/`LockTheorems` add locks, `CondModel`/`Condvars` a condition
variable with its private semaphores. `Priorities` is the case without donation and without wake-ups by
interrupts. `KernelEffects` states each region on status, lists and current thread alone, and
`KernelFairness` that equals take turns. `ThreadSystem` is the code on the kernel's own variables, proved to be
those steps.

**Priority donation** (`Donation`, `DonationRuns`, `DownDonation`; Lab2/lock.c, Lab2/semaphore.c). What
acquires write and what a release takes back, on the linked list of `IntrusiveList`. No general claim that a
priority is the maximum of base and donors is made, since the code does not provide it. Three results say
what it does instead. A release undoes its lock's acquires only under the condition of
`ReleaseUndoesAcquiresIff`: `lock_acquire` may also raise the thread that the holder has itself donated to,
which nothing lowers again, and `lock_release` does nothing when the last acquirer's priority is the holder's
own. The donors it then leaves on the list break that list if they acquire a lock of the same holder again.
And `lock_temp` is never reset, so that a later sleep on any semaphore follows it to a lock without a holder
(`SleepFaultsIff`, `SleepCanFault`); the kernel's safety results are about runs in which it does not.

**Sleep** (`SleepModel`, `SleepTimers`, `IntrusiveList`; Lab1). One service, three implementations, each
proved to be it; `IntrusiveList` is the doubly linked list, where an element keeps its own links when it is
removed, which is what lets both walks go on from a removed element. `timer_sleep` stores the deadline before
it disables interrupts, so a thread may fall asleep too late. The lists then wake it at the next interrupt;
the scan, which compares for equality, never does, or fails an assertion if the interrupt at the deadline
comes in between. **Calibration** (`Calibration`; Lab1) is `timer_calibrate` with the timer as a threshold on
the number of loops.

**Cart manager** (`CartModel`, `CartManager`, `CartTheorems`, `CartDeadlock`; Assignment3/cartman.c) and
**paragraph chain** (`Manpage`; Assignment3/manpage.c), for any number of tracks and paragraphs, and for all
arrivals at an end of a track. In the cart manager one arrival is wrong: a cart coming to junction 0 from the
last track (of more than two) takes the wrong neighbour, because line 26 compares 0 with `T + 1`.
`LocksItsOwnEndsIff` says that this is the only one. It lets two carts cross that meet at a junction exactly
on rings of at least four (`ExclusiveIff`), and two carts deadlock on rings of at least three
(`TwoCartsDeadlock`). Besides, only a full ring going the same way round can deadlock (`CanDeadlockIff`).

**Directory views** (`TreeModel`, `TreePrinter`, `TreeColumns`, `TreeTheorems`, `TreeLimits`;
Assignment5/fileman.c). The printers with their loops and the global array of flags, proved to write a text
that depends on the directory alone, where every character of it is, and
parsers that recover the directory from either text, with the exact condition on names for each; that such
names make the texts themselves ambiguous is proved beside it.

**Argument stack** (`ArgStack`; Lab3/process.c). `push_command` on a byte memory, and a reader that follows
the words of the frame back to the tokens of the command line.

`Options` and `Sequences` hold what several of them share.

## Model

| member | source | states |
|---|---|---|
| Scheduler.Scheduler.constructor | Assignment4/scheduler.c:57-63 | both queues are empty and nobody runs |
| Scheduler.Scheduler.Tick | Assignment4/scheduler.c:70-164 | sorting, quantum, three preemptions and dispatch together are one function of the old globals, whose choice RoundRobinPreemptsIff, PreemptsIff, RunsTheLeastKey and NobodyOvertakes fix |
| Scheduler.Scheduler.CountQuantum | Assignment4/scheduler.c:87-105 | the quantum is counted, reset when nobody waits, and hands over to the queue's head when it is used up |
| Scheduler.Scheduler.CompareRemaining | Assignment4/scheduler.c:132-148 | the switch happens when the head has at most what the running thread, already charged, has left; the charge moves to the head |
| Scheduler.Scheduler.DispatchNext | Assignment4/scheduler.c:150-163 | a free CPU goes to the head, which stops waiting and is charged |
| Scheduler.Scheduler.SwitchTo | Assignment4/scheduler.c:108-117 | the running thread goes to the tail and starts waiting, the head leaves the queue for the CPU |
| Scheduler.Scheduler.SysExec | Assignment4/scheduler.c:169-178 | the new thread is queued, with a record whose other fields are whatever malloc left |
| Scheduler.Scheduler.SysExit | Assignment4/scheduler.c:183-187 | the finish time is the end of the unit and the CPU is free |
| Scheduler.Scheduler.SysRead | Assignment4/scheduler.c:194-198 | the thread waits from the end of the unit and the CPU is free |
| Scheduler.Scheduler.SysWrite | Assignment4/scheduler.c:205-209 | as a read |
| Scheduler.Scheduler.IoComplete | Assignment4/scheduler.c:215-219 | the thread is queued again and waits from the end of the unit |
| Scheduler.Scheduler.IoStarting | Assignment4/scheduler.c:225-228 | the wait for the device is added to the waiting time |
| Scheduler.Scheduler.Stats | Assignment4/scheduler.c:233-250 | draining the queue reports every thread once, in order, with the truncated averages; it divides by zero if and only if there was no thread |
| SchedulerRuns.StepKeepsInv | Assignment4/scheduler.c:65-228 | every callback under every algorithm keeps the partition of the threads and every thread's account of its time |
| SchedulerTheorems.TimeIsConserved | Assignment4/scheduler.c:96-103 | in every run of every algorithm a finished thread's turnaround is its waiting time plus its CPU and device units; the waiting time is the units waited if and only if it never moved on within a charged unit |
| SchedulerTheorems.ThreadsArePartitioned | Assignment4/scheduler.c:169-219 | in every run a thread is ready if and only if it is in the queue, there once, and runs if and only if it is the current thread |
| SchedulerTheorems.ReportBalances | Assignment4/scheduler.c:238-246 | total turnaround is total waiting plus all CPU and device units |
| SchedulerTheorems.FinalReport | Assignment4/scheduler.c:233-249 | after a whole run the queue of all threads has each once, and the totals of the report balance |
| SchedulerTheorems.NoIdling | Assignment4/scheduler.c:149-163 | after a tick the CPU is idle only if nobody is ready |
| SchedulerTheorems.RunsTheLeastKey | Assignment4/scheduler.c:72-78 | after a tick no ready thread has a lower priority number (or length) than the running one, for any ascending sort |
| SchedulerTheorems.RunsTheShortestRemaining | Assignment4/scheduler.c:132-148 | preemptive SRTF: after every tick the running thread has strictly less left than every ready one |
| SchedulerTheorems.RemainingIsLengthMinusCpu | Assignment4/scheduler.c:80-86 | in every run of either SRTF remaining time is length minus units on the CPU, in spite of the charge that is undone |
| SchedulerTheorems.BusyTickCostsOne | Assignment4/scheduler.c:132-163 | a tick takes one unit, from the thread that runs after it and from nobody else |
| SchedulerTheorems.NonPreemptiveKeepsTheCpu | Assignment4/scheduler.c:70-164 | under a non-preemptive algorithm only an exit or a request frees the CPU |
| SchedulerTheorems.NobodyOvertakes | Assignment4/scheduler.c:87-105 | under FCFS and round robin a queued thread's index never grows |
| SchedulerTheorems.BoundFalls | Assignment4/scheduler.c:87-105 | p * quantum + (quantum - ticks of the running thread) falls with every tick and never grows |
| SchedulerTheorems.RoundRobinStarvesNobody | Assignment4/scheduler.c:87-105 | with a positive quantum the thread at index p runs within (p + 1) * quantum ticks, whatever happens meanwhile |
| SchedulerTheorems.ZeroQuantumStarves | Assignment4/scheduler.c:89-93 | with a quantum of 0 nobody else runs until the running thread leaves |
| SchedulerChoice.RoundRobinPreemptsIff | Assignment4/scheduler.c:87-104 | at a tick the running thread loses the CPU, to the head of the queue, if and only if it has had whole quanta in its turn and somebody is ready |
| SchedulerChoice.TurnCounts | Assignment4/scheduler.c:87-104 | a turn begins with the tick that gives a thread the CPU and grows by one with each that leaves it |
| SchedulerChoice.TurnLasts | Assignment4/scheduler.c:87-104 | over every run without its exit or request a thread keeps the CPU through every tick of its first quantum |
| SchedulerChoice.TurnIsOneQuantum | Assignment4/scheduler.c:87-104 | a thread just dispatched has exactly `quantum` units, and at the tick after them loses the CPU if and only if somebody is ready |
| SchedulerChoice.PreemptsIff | Assignment4/scheduler.c:106-148 | under preemptive priority, SJF and SRTF a tick takes the CPU away if and only if some ready thread has a strictly lower priority number, length or time left by the ledger |
| SchedulerReport.LinesAreRecords | Assignment4/scheduler.c:238-242 | line k names the k-th thread, with its own waiting time and its own finish minus arrival |
| SchedulerReport.TotalsAreSums | Assignment4/scheduler.c:243-244 | the totals are the sums of the lines |
| SchedulerReport.DivisionTruncates | Assignment4/scheduler.c:247-248 | an average times the number of threads is the multiple nearest to the total on the side of zero |
| SchedulerReport.OrderIsArrivals | Assignment4/scheduler.c:177 | in every run the threads are kept in the order in which they came |
| SchedulerReport.ReportTellsTheRun | Assignment4/scheduler.c:233-250 | in every finished run the report has one line for each thread, in the order in which they came, with that thread's waiting time by the ledger and that plus its CPU and device units |
| KernelTheorems.StepKeepsInv | Lab2/thread.c:267-384 | every atomic region keeps the invariant of threads, lists and semaphores, for arbitrary priority writes |
| KernelTheorems.SharedElementIsSound | Lab2/thread.h:77-82 | in every interleaving exactly one thread runs, the ready list is the ready threads but idle without repeats, and no thread is on two lists |
| KernelTheorems.NoLostWakeUp | Lab2/semaphore.c:71-112 | in every interleaving, barging included, a positive semaphore with sleepers has at least as many woken threads that have yet to test it |
| KernelTheorems.CountIsConserved | Lab2/semaphore.c:71-112 | in every run value = initial value + ups - completed downs |
| Priorities.InsertsBehindEquals | Lab2/thread.c:294-312 | a thread goes behind all of its priority or higher and before all lower, and the list stays sorted |
| Priorities.CallKeepsHighest | Lab2/thread.c:205-427 | every kernel call keeps the ready list sorted and the highest priority running |
| Priorities.HighestPriorityRuns | Lab2/thread.c:249-253 | from boot, after any calls, no ready thread has a higher priority than the running one |
| KernelEffects.BlockHandsOver | Lab2/thread.c:266-274 | the blocked thread gives the CPU to the front of the ready list, or to idle |
| KernelEffects.ExitHandsOver | Lab2/thread.c:360-363 | the same for a dying thread |
| KernelEffects.YieldRotates | Lab2/thread.c:369-384 | if the front of the ready list is at least as high it runs, and the yielding thread is ready behind all at the front that are at least as high as itself; otherwise it runs on |
| KernelEffects.IdleYields | Lab2/thread.c:378-382 | idle is put on no list when it yields |
| KernelEffects.UnblockPuts | Lab2/thread.c:284-297 | the thread alone becomes ready, before the first lower one; nobody is preempted |
| KernelEffects.CreatePuts | Lab2/thread.c:225-249 | the new thread is ready with its priority, before the first lower one |
| KernelEffects.CreateSwitchesIff | Lab2/thread.c:251-253 | it has the CPU after thread_create if and only if it is higher than the running thread |
| KernelEffects.SetSwitchesIff | Lab2/thread.c:415-426 | the priority is set, and the CPU is given up if and only if a ready thread is now higher |
| KernelEffects.UpWakesHighest | Lab2/semaphore.c:104-110 | with waiters, one of them that is as high as every other becomes ready and the others still wait; without, nobody's status changes; the value is one more |
| KernelEffects.UpSwitchesIff | Lab2/semaphore.c:104-116 | the CPU changes hands if and only if some waiter is higher than the running thread |
| KernelEffects.DownTakesOrSleeps | Lab2/semaphore.c:76-87 | a positive semaphore loses one and nothing else changes; otherwise the thread is blocked among the waiters, before the first lower one, and hands over |
| KernelEffects.ExitIsFinal | Lab2/thread.c:348-365 | in every run a thread that has exited never runs or is ready again |
| KernelEffects.BlockedUntilWoken | Lab2/thread.c:266-297 | a blocked thread becomes ready by being unblocked or as the first waiter of an upped semaphore, and by nothing else |
| KernelFairness.StepMoves | Lab2/thread.c:369-384 | as long as nobody higher arrives, a ready thread with nobody higher before it never falls back, and each yield moves it one further |
| KernelFairness.EqualsTakeTurns | Lab2/thread.c:369-384 | such a thread with p before it runs after at most p + 1 yields, whatever else happens: equals take turns |
| ThreadSystem.ThreadSystem.NextThreadToRun | Lab2/thread.c:577-584 | the front of the ready list, or idle if it is empty |
| ThreadSystem.ThreadSystem.Schedule | Lab2/thread.c:603-653 | the next thread is current and running |
| ThreadSystem.ThreadSystem.ThreadBlock | Lab2/thread.c:266-274 | the current thread is blocked and on no list, and the next one runs |
| ThreadSystem.ThreadSystem.ThreadUnblock | Lab2/thread.c:284-297 | the thread is ready, in its place on the list; nobody is preempted |
| ThreadSystem.ThreadSystem.ThreadYield | Lab2/thread.c:369-384 | a front of the ready list that is at least as high runs and the yielding thread is ready in its place; otherwise it runs on; idle is put on no list |
| ThreadSystem.ThreadSystem.ThreadExit | Lab2/thread.c:348-365 | the current thread is dying, on no list and no longer on the list of all |
| ThreadSystem.ThreadSystem.InitThread | Lab2/thread.c:538-557 | a blocked thread with its priority, nothing donated or recorded, at the end of the list of all |
| ThreadSystem.ThreadSystem.ThreadCreate | Lab2/thread.c:205-255 | without a page nothing changes; otherwise the new thread is ready, and runs at once if its priority is higher |
| ThreadSystem.ThreadSystem.ThreadSetPriority | Lab2/thread.c:403-427 | with donors only the remembered priority changes; otherwise the CPU is given up if and only if a ready thread is now higher |
| ThreadSystem.ThreadSystem.SemaphoreInit | Lab2/semaphore.c:54-60 | the semaphore has its value and no waiters |
| ThreadSystem.ThreadSystem.DonateBeforeSleep | Lab2/semaphore.c:79-83 | the holder of the lock last found held gets the maximum of its own and the sleeper's priority and nobody else's changes; NULL is dereferenced if and only if that lock has no holder |
| DownDonation.SleeperRaisesHolder | Lab2/semaphore.c:79-83 | the same of the function on priorities; with lock_temp NULL nothing changes |
| ThreadSystem.ThreadSystem.SemaphoreDownTest | Lab2/semaphore.c:76-87 | one test of the loop: the thread takes one and leaves the loop if and only if the value was positive; otherwise it donates and sleeps on the list in its place, or dereferences NULL |
| DownDonation.SleepFaultsIff | Lab2/semaphore.c:79 | in every run of lock calls: once a thread has found a lock held, and until it finds another held, its sleep on any semaphore dereferences NULL if and only if that lock is free |
| DownDonation.SleepCanFault | Lab2/semaphore.c:79 | that is reachable with two threads and one lock: after both have had it nobody is in a lock call, and the second faults at its next sleep |
| ThreadSystem.ThreadSystem.UpRegion | Lab2/semaphore.c:102-112 | the highest waiter and nobody else becomes ready, the others still wait, and the value is one more |
| ThreadSystem.ThreadSystem.SemaphoreUp | Lab2/semaphore.c:97-116 | and the CPU is given up if and only if some waiter is higher |
| ThreadSystem.ThreadSystem.SemaphoreUpRest | Lab2/semaphore.c:118-127 | the second yield happens if and only if some waiter is at least as high |
| LockModel.DoKeeps | Lab2/lock.c:82-137 | every lock operation keeps: one unit, in the semaphore or inside, and the holder is the thread inside |
| LockTheorems.LStepKeeps | Lab2/lock.c:82-137 | every lock operation together with its kernel region keeps the kernel's and the locks' invariants and their coupling |
| LockTheorems.MutualExclusion | Lab2/lock.c:82-137 | in every interleaving and for arbitrary priority writes at most one thread is between the down and the up of a lock, the holder is NULL or that thread, and value + threads inside = 1 |
| Condvars.CStepKeeps | Lab2/condvar.c:79-137 | everything any thread may do keeps the invariant of the waiters and their private semaphores |
| Condvars.SignalIsNotLost | Lab2/condvar.c:86-92 | in every interleaving a waiting thread's semaphore is positive if and only if it has been signalled, and then it is not asleep, even if the signal came before its down |
| CondModel.PopMovesToTheUp | Lab2/condvar.c:111-117 | what others do between the pop and the up of a signal could as well come before the pop, so that a signal is one step |
| Condvars.BroadcastAccounts | Lab2/condvar.c:128-137 | while a thread is in the loop the waiters are those that are left plus those upped |
| Condvars.BroadcastUpsEachOnce | Lab2/condvar.c:128-137 | the loop makes as many signals as there were waiters, and ups each of them exactly once and nobody else, although every up yields |
| Donation.FrontIsMaximum | Lab2/lock.c:127-129 | if the donor list was sorted, the front of what remains is the highest remaining donor |
| DonationRuns.ReleaseUndoesAcquiresIff | Lab2/lock.c:88-134 | a release takes back what any number of acquirers of the lock gave, priorities and donor list, if and only if the last one was not of the holder's own priority (or the release does nothing), none was above the thread the holder has donated to (nothing lowers that one again), and before them the holder's priority was its front donor's and no donor waited for the lock |
| DonationRuns.CleanUpRestoresIff | Lab2/lock.c:91-133 | the clean-up gives back the donor list, and the priorities if and only if no acquirer was above the thread the holder has donated to |
| DonationRuns.RaisedDoneeStays | Lab2/lock.c:92-94 | an acquirer of 50 leaves the thread of 31 that the holder has donated to at 50 |
| DonationRuns.LowLastAcquirerStays | Lab2/lock.c:113 | after acquirers of 40 and then 31 for a holder of 31 the release does nothing, and both stay on its list |
| Donation.LockCode.constructor | Lab2/lock.c:62-68 | nobody holds the lock and nobody has donated |
| Donation.LockCode.InsertDonor | Lab2/lock.c:90 | walking the linked list inserts the donor behind all that are at least as high; a donor that is still on it breaks the list |
| Donation.LockCode.AcquireDonates | Lab2/lock.c:86-96 | the holder gets the acquirer's priority unconditionally, its donee gets it if that is higher, and a free lock changes nothing; the donor list stays a list if and only if the acquirer is not still on it |
| Donation.LockCode.RemoveDonors | Lab2/lock.c:115-126 | the walk that removes as it goes leaves exactly the donors that wait for other locks, in order |
| Donation.SortedAreTheRemoved | Lab2/lock.c:121-124 | of the other threads' priority lists exactly those of the removed donors have been sorted |
| Donation.LockCode.TakeBack | Lab2/lock.c:115-133 | and the priority is the front donor's, or the thread's own when none is left |
| Donation.LockCode.ReleaseRestores | Lab2/lock.c:108-135 | the holder is NULL; donors and priority are taken back if the priority is not the thread's own, and kept if it is |
| IntrusiveList.List.Remove | Lab1/timer_list.c:130 | removal relinks the neighbours, keeps the order of the others and leaves the removed element pointing at its successor |
| IntrusiveList.ReinsertBreaks | Lab2/lock.c:90 | after an element that is on the list is inserted again, before any element, no list has the links and all the elements |
| IntrusiveList.List.Insert | Lab1/timer_sorted_list.c:120 | insertion before any element keeps the links and the order of the others, unless the element is on the list already |
| IntrusiveList.List.Visit | Lab1/timer_list.c:231-236 | the next element is found even when the visited one has just been removed |
| IntrusiveList.List.RemoveWhere | Lab1/timer_list.c:231-236 | the walk visits every element once, removes exactly those it should and keeps the others in order |
| SleepModel.SleepsExactly | Lab1/timer.c:105-129 | a sleeper is woken by no interrupt before its deadline and once by the one at it, or by the next one if it fell asleep later; the scan needs that it did not |
| SleepModel.SleepLasts | Lab1/timer.c:106-115 | timer_sleep of n ticks begun at a tick wakes the thread once, exactly n ticks after that one, or at the next if that has passed when it blocks; not at all positive times do nothing |
| SleepModel.SameDueIff | Lab1/timer.c:126 | scan and lists wake the same threads if and only if nobody fell asleep after its deadline |
| SleepModel.ScanMissesForGood | Lab1/timer.c:126 | a thread that fell asleep after its deadline is never woken by the scan |
| SleepTimers.TimerScan.ThreadCreated | Lab2/thread.c:538-557 | a new thread is scanned too and is not asleep |
| SleepTimers.TimerScan.ThreadExited | Lab2/thread.c:361 | the other threads are still scanned, and the sleepers are the same |
| SleepTimers.TimerScan.StoreDeadline | Lab1/timer.c:106-112 | a positive time stores the deadline while the thread is still awake and interrupts are on |
| SleepTimers.TimerScan.BlockCurrent | Lab1/timer.c:114-115 | the thread is a sleeper with the deadline it stored |
| SleepTimers.TimerScan.TimerInterrupt | Lab1/timer.c:219-228 | the scan of all threads, sleeping or not, for an equal deadline wakes exactly the due sleepers, each once; the assertion in thread_unblock fails if and only if an awake thread has that deadline |
| SleepTimers.TimerQueue.StoreDeadline | Lab1/timer_list.c:108-114 | the deadline is stored, nobody else is affected |
| SleepTimers.TimerQueue.BlockCurrent | Lab1/timer_sorted_list.c:119-121 | the thread is a sleeper with the deadline it stored, wherever the comparator puts it |
| SleepTimers.TimerQueue.TimerInterrupt | Lab1/timer_list.c:223-239 | the walk of the list for a deadline that is not later wakes exactly the due sleepers, each once, and leaves only later deadlines |
| Calibration.Timer.TimerCalibrate | Lab1/timer.c:53-77 | on 32-bit words, for every threshold: the assertion fails if and only if the threshold is at least 2^31, and otherwise the result is `Calibrated`, or 1024 for a smaller threshold |
| Calibration.Timer.Refine | Lab1/timer.c:71-74 | the second loop, testing each bit with the high bit alone, finds all bits from the first that fits on |
| Calibration.CalibratedIsClose | Lab1/timer.c:63-74 | result and threshold lie between the same powers of two above the same high bit, and differ by less than a third of the threshold |
| Calibration.CalibratedIsPreciseIff | Lab1/timer.c:70-74 | the refinement is exact to its last bit, and not too many loops, if and only if the refined bits of the threshold are zeros followed by ones |
| Calibration.CalibratedOvershoots | Lab1/timer.c:73 | for a threshold of 1536 the result is 2046, which is too many loops |
| CartManager.Junctions | Assignment3/cartman.c:26-45 | the patched remainders are the junction and its neighbour on the side the cart is thought to come from, in the order of its parity |
| CartModel.LocksItsOwnEndsIff | Assignment3/cartman.c:26-45 | the two junctions are the ends of the cart's track if and only if the cart does not come to junction 0 from the last of more than two tracks |
| CartModel.TakesLowerEndFirstIff | Assignment3/cartman.c:28-30 | parity and side decide which end is taken first |
| CartManager.Manager.constructor | Assignment3/cartman.c:85-93 | one binary semaphore per junction |
| CartManager.Manager.Arrive | Assignment3/cartman.c:68-76 | the cart's thread is about to wait for its first junction |
| CartManager.Manager.Advance | Assignment3/cartman.c:46-57 | one semaphore operation of the thread, both waits and both posts in the code's order |
| CartTheorems.JunctionsAreExclusive | Assignment3/cartman.c:46-57 | in every interleaving of all arrivals two carts never hold one junction, and a crossing cart holds both ends of its track, or junctions 0 and 1 if it has picked the wrong neighbour |
| CartTheorems.OnlyTheWrapCollides | Assignment3/cartman.c:26-57 | carts whose tracks meet cross together only on the last two of at least four tracks, the last one's cart having picked the wrong neighbour |
| CartTheorems.WrapBreaksExclusion | Assignment3/cartman.c:26 | with at least four tracks this is reachable, whatever the cart's number |
| CartTheorems.ExclusiveIff | Assignment3/cartman.c:26-57 | with all arrivals, carts whose tracks meet never cross together if and only if there are at most three tracks |
| CartDeadlock.NoDeadlock | Assignment3/cartman.c:47-57 | no run gets stuck unless every track carries a cart and all go the same way round, or a cart that has picked the wrong neighbour opposes the one on track 0 |
| CartDeadlock.HandledIsSafe | Assignment3/cartman.c:26-57 | without the one bad arrival carts whose tracks meet never cross together, and only a full ring going the same way round is ever stuck |
| CartDeadlock.CanDeadlockIff | Assignment3/cartman.c:47-48 | carts that have just arrived can deadlock if and only if they fill the ring the same way round or two are opposed |
| CartDeadlock.EverybodyCrosses | Assignment3/cartman.c:46-57 | otherwise every schedule is over after at most four moves per cart, with all carts across |
| CartDeadlock.TwoCartsDeadlock | Assignment3/cartman.c:26-48 | on every ring of three or more two carts are enough for a deadlock: one with the wrong neighbour, and one on track 0 |
| Manpage.MoveKeepsInv | Assignment3/manpage.c:48-58 | every step of every thread keeps the chain: a thread is past its wait only if the one before has posted |
| Manpage.ShowsInOrder | Assignment3/manpage.c:48-71 | in every interleaving the paragraphs appear in order, and nobody can move only when all have been shown |
| Manpage.Page.constructor | Assignment3/manpage.c:60-67 | all semaphores are 0 and all threads are at their start |
| Manpage.Page.Advance | Assignment3/manpage.c:48-58 | the next operation of a thread: wait, show, or post |
| TreePrinter.FileManager.DrawTree | Assignment5/fileman.c:317-362 | the lines are those of `TreeText` for the ancestors' columns, which TreeViewIs fixes; the columns to the left are unchanged, and stale ones to the right do not matter |
| TreePrinter.FileManager.DrawColumns | Assignment5/fileman.c:321-340 | one line's columns: a bar where the flag is set, and the entry's own corner or tee |
| TreePrinter.FileManager.FilemanTree | Assignment5/fileman.c:364-368 | whatever earlier calls left in the array, the text depends on the directory alone, and shows its entries column by column |
| TreePrinter.FileManager.GetDir | Assignment5/fileman.c:255-278 | the text is the pure `DirText` |
| TreePrinter.FileManager.FilemanDir | Assignment5/fileman.c:280-284 | a header line and the indented text |
| TreeColumns.TreeViewIs | Assignment5/fileman.c:317-357 | for every directory the view is one line for each entry in order: a bar exactly below the ancestors that are not last siblings, spaces elsewhere, the corner for a last sibling and the tee for another, two bars, a space and the name |
| TreeColumns.ColumnsBelow | Assignment5/fileman.c:348-353 | an entry's column has a bar below it if and only if it is not the last of its siblings |
| TreeColumns.LineShows | Assignment5/fileman.c:321-341 | a line has its columns, its corner or tee, and its name |
| TreeTheorems.TreeRoundTrip | Assignment5/fileman.c:317-368 | the ordered forest is recovered from the tree view, for all names without a line break, up to empty directories looking like files |
| TreeTheorems.DirRoundTrip | Assignment5/fileman.c:255-284 | the same from the indented view, for all names without a line break and not indented by four |
| TreeLimits.TreeRoundTripIff | Assignment5/fileman.c:317-368 | the reader of the tree view recovers the directory if and only if the header and every name are single lines |
| TreeLimits.DirRoundTripIff | Assignment5/fileman.c:255-284 | the reader of the indented view recovers the directory if and only if, besides, no name is indented by four |
| TreeTheorems.BuildPreorder | Assignment5/fileman.c:341-356 | depths and names in printing order determine the forest |
| TreeTheorems.IndentedNameIsAmbiguous | Assignment5/fileman.c:259-262 | with a name indented by four, two different directories have the same indented view |
| TreeTheorems.TwoLineNameIsAmbiguous | Assignment5/fileman.c:262 | with a line break in a name, two different directories have the same indented view |
| TreeTheorems.TwoLineNameIsAmbiguousInTree | Assignment5/fileman.c:322-341 | with a line break in a name, two different directories have the same tree view, for any reader |
| TreeTheorems.TreeTextTells | Assignment5/fileman.c:317-362 | directories of single-line names with the same tree view are the same, up to empty directories and files |
| TreeTheorems.DirTextTells | Assignment5/fileman.c:255-278 | the same for the indented view and names that are not indented by four |
| ArgStack.TokensOfJoin | Lab3/process.c:92-100 | splitting tokens joined by single spaces gives the tokens back |
| ArgStack.TokensOfSpaced | Lab3/process.c:93-100 | the tokens are found however many spaces stand before, between and behind them |
| ArgStack.LineIsSpaced | Lab3/process.c:93-100 | every command line is its tokens with such spaces |
| ArgStack.Strtok | Lab3/process.c:96-97 | a call finds the next token and what is left, or there is none |
| ArgStack.Split | Lab3/process.c:96-100 | the loop finds all tokens in order |
| ArgStack.StoreWord | Lab3/process.c:111-125 | the four bytes of a word, the least significant at the lowest address; no other byte changes |
| ArgStack.WordIsLittleEndian | Lab3/process.c:111-125 | a word that is read has those four bytes |
| ArgStack.PushStrings | Lab3/process.c:102-107 | every token lies NUL-terminated directly below the one before, and its address is recorded |
| ArgStack.PushPointers | Lab3/process.c:113-116 | the recorded addresses are stored in order, byte by byte |
| ArgStack.PushCall | Lab3/process.c:118-125 | argv, argc and a zero return address, one below the other, byte by byte |
| ArgStack.FrameHolds | Lab3/process.c:101-125 | such words and strings make a frame: reading argc and argv and following the pointers yields the tokens |
| ArgStack.FrameIsBytes | Lab3/process.c:101-125 | such a frame byte by byte: every word with its least significant byte first, each string at the address its pointer holds, fewer than four bytes unused |
| ArgStack.PushCommand | Lab3/process.c:76-126 | for every command line that fits: the frame reads back as exactly its tokens and is fixed byte by byte, argv ends with 0, esp is aligned, nothing overlaps, and every byte outside it is unchanged |

## Left out

- Scheduler.Scheduler.Tick: `sim_dispatch` and printing are not modelled, and the counters are unbounded integers.
- ThreadSystem.ThreadSystem.SemaphoreUpRest: returning to the remembered priority and the last yield are the calls ThreadSetPriority and ThreadYield.
- ThreadSystem.ThreadSystem.ThreadCreate: the tid and its lock, stack frames, and the release of a dead thread's page are not modelled; a thread is named by its page.
- ThreadSystem.ThreadSystem.ThreadUnblock: the ready list is a sequence; `list_insert_ordered` and `list_sort` of the list library are not part of the repository, so the first is a function and the second any sorted permutation.
- Priorities.HighestPriorityRuns: for calls up to their first yield, without donation and without wake-ups by interrupt handlers; with them the code does not promise it.
- LockTheorems.MutualExclusion: one lock call of a thread at a time, as the code's callers make them; donation appears as arbitrary priority writes.
- Donation.LockCode.RemoveDonors: the lists of the removed donors, which the code sorts during its walk, are sorted after it; they are other lists than the one that is walked.
- SleepTimers.TimerQueue.BlockCurrent: the position of the insertion is a parameter, because the comparator of timer_sorted_list.c reads the wrong member.
- SleepTimers.TimerScan.TimerInterrupt: the order in which threads are unblocked is the list's, but only the set is stated; 64-bit overflow of `ticks` is not modelled.
- Calibration.Timer.TimerCalibrate: the busy loop and the clock behind `too_many_loops` are a threshold; printing is left out.
- CartDeadlock.NoDeadlock: at most one cart per track; `reserve`, `cross` and `release` are the time between the waits and the posts.
- CartManager.Manager.Arrive: creating and detaching the thread and the memory of its argument are not modelled.
- Manpage.ShowsInOrder: the threads' paragraph ids are taken to be distinct.
- TreePrinter.FileManager.DrawTree: directories nested deeper than the array of 100 flags are excluded, because the code then writes outside it; `scandir` is an ordered tree in memory, and a directory that cannot be read has no entries.
- ArgStack.PushCommand: the NULs that strtok_r writes into the command line itself are not modelled; the tokens must fit the page that holds their pointers and the frame must fit below the stack pointer.
- Assignment1 and Assignment2 sorts: merge sorts around an unseen merge, with processes and threads as plumbing.
- Lab3/syscall.c and the rest of Lab3/process.c: fetching arguments, loading programs, file-system calls into code that is not there.
- Lab3/thread.c and Lab2/timer.c: a simpler and a duplicate version of what is modelled.
- Stack frames, page allocation, magic checks, statistics and the MLFQS stubs of Lab2/thread.c; a context switch is an assignment to the current thread.
- fileman_read, fileman_write, fileman_append and fileman_copy: file I/O.
