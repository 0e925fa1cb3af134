# A verified model of the Pintos projects

This project models, in Dafny, three parts of an operating-system course
project built on Pintos, and proves what they promise.

**The scheduler and the synchronization primitives** (project 2, with the alarm
clock of project 1). `Machine.dfy` is a state machine over any number of
threads, locks, semaphores and condition variables. A step is a stretch of
kernel code that no other thread can interleave with; between two steps any
thread switch is possible, so every thread carries the point of the code it
continues from, for instance woken inside the loop of `sema_down` or past the
semaphore of a lock but not yet its holder. `Parking`, `Ownership`, `Donation`,
`Chains`, `Conditions` and `Dispatch` each hold one part of the global
invariant and prove that every step keeps it; `Invariant` puts them together
for every state of every run; `Guarantees`, `Priority` and `Runs` say what
follows, with `Fifo` on the order of equally urgent threads, `Inheritance` on
which blocked threads a lock's holder inherits from, `Ranking` on locks acquired
in a fixed order and `SignalOrder` on whom `cond_signal` picks. `Calls` follows a
primitive from its call to its return and says what it has done by then; `Turns`
says when the running thread keeps the processor, and that a thread that exits
is gone. Where a property
one would expect fails, there is a run from boot into a state that shows it:
`Lowering`, `Deadlock`, `WakeOrder`, and the second parts of `Inheritance` and
`SignalOrder`, put together from the stretches in `Scenarios`. `Lists` holds the
list contracts: ordered insertion goes before the first strictly smaller
element, and the sort is stable, which determines it.
`Objects` has the kernel's objects with their fields updated in place, list
walks that remove elements, and the loops of `donate_priority`, `remove_lock`,
`thread_awake` and the sorts; its methods are proved to do exactly what the
machine's step does, starting from objects it creates, so the guarantees hold of
them. `Loops` has the facts about those loops.

**Program loading** (project 4, with project 3's loader as its specification).
`Segments` has the header checks and the page arithmetic on 32-bit words,
`Paging` what eager and lazy loading mean, `Loading` the proof that demand
paging refines eager loading and that both put in memory what the headers ask
for, `OnDemand` the same page by page where the eager loader would fail, and
`Loaders` the loaders, the fault handler and the page buffers updated
in place. `CommandLine` defines splitting and the image of the initial stack,
with a reader for it; `ArgStack` has `construct_esp`, `parse_filename` and the
string functions they use, over buffers.

**Waiting for a child** (project 4). `Waiting` is the handshake of
`process_wait` and `process_exit` for any family tree of processes and any
interleaving; `Processes` updates the processes' fields in place.

What the code does and its comments do not say:

- `donate_priority` stores the donor's priority without comparing
  (project2/thread.c:639 and 644). A thread of low priority that asks for a lock
  therefore lowers the holder, even below the holder's own priority:
  `Lowering.HolderCanBeLowered` is a run from boot in which it does.
  `Runs.StepEffectiveIff` says exactly when priorities stay right: a step keeps
  every priority equal to the highest of its thread's own and its donors' if and
  only if it does not donate to a chain with a thread above the donor.
- `donate_priority` does not end if acquiring the lock closes a cycle of waits,
  and always ends otherwise: `Runs.StuckIff`, `Chains.DonationEndsIff`. Two threads
  and two locks are enough: `Deadlock.CycleCanClose` is a run from boot.
- If all threads acquire locks in the order of a ranking, no donation walks a cycle
  (`Runs.RankedNeverStuck`), and no threads wait for one another in a circle, counting also
  those that no longer donate to the holder they wait for (`Ranking.NeverACircle`).
- Among equally urgent threads the ready list is first come, first served, over whole
  runs (`Fifo.ReadyFifo`). A semaphore's queue is so only as far as it is in order when
  a thread joins (`Fifo.ParksBehindIff`): a donation that lifts a waiter to the priority
  of a later one leaves the later one ahead, and it is woken first.
  `WakeOrder.LaterWokenFirst` is a run from boot in which it is.
- `thread_create` yields if the new thread is above its creator, but it is not always
  the new thread that runs then: a thread that a timer interrupt has made ready within
  the time slice may be above both (`Guarantees.CreatePreempts`).
- After a release the remaining waiters have no `waiting_lock` and donate to
  nobody, so the next holder does not inherit their priorities. A thread in
  `lock_acquire` is among the donors of the lock's holder if and only if the lock has had
  a recorded holder in every state since its call (`Inheritance.DonatesIff`), and as long
  as that is so, and nobody donates from below, the holder is at least as urgent
  (`Inheritance.HolderInherits`). `Inheritance.HolderBelowWaiter` is a run from boot into a
  state where it is not, although each priority is the highest of the thread's own and its donors'.
- `compare_sema` looks at the first waiter of each semaphore. `cond_wait` inserts
  an element whose semaphore still has no waiter, so the new element may land
  anywhere, and until every queued thread has reached its semaphore the sort in
  `cond_signal` may leave any order. The model lets it. `cond_signal` is sure to pick a
  most urgent waiter if and only if all waiters have reached their semaphores or are
  equally urgent (`SignalOrder.SignalTopmostIff`); `SignalOrder.LessUrgentSignalled` is a run
  from boot in which a waiter was preempted before that, and the sort may put it first
  although another is more urgent.
- `validate_segment` bounds the start of the file part by the file's length but
  not its end. A segment that runs past the 32-bit range of offsets is accepted;
  the eager loader then fails on it, and under demand paging the program reads the
  first bytes of the file in a page in the middle of it: `OnDemand.WrongBytesTouched`
  loads and touches such a header. `Loading.OffsetsExactIff` is the
  exact condition. The file must be longer than 1 GiB (`Loading.WrapNeedsLongFile`),
  and the header given as an example needs almost 2 GiB.
- The result of `insert_vme` is ignored, so where segments share a page the first
  one's entry stays (`Loading.FirstInserted`). The others get their page, whatever is in
  the file, if and only if the first asks for as many bytes from the same place, with the
  same permission (`OnDemand.GetsItsPageIff`). A segment may also reach into the
  stack page unnoticed (`OnDemand.StackHidesSegment`). The eager loader fails in both cases
  (`Loading.EagerLoadsIff`).
- The page of an executable is read twice, since the case of `handle_mm_fault`
  falls through (project4/userprog/process.c:611-623); the second read changes nothing.

## Model

| member | source | states |
|---|---|---|
| Lists.InsertIsFifo | project2/thread.c:243-257 | insertion by `compare` queues a thread behind those of equal priority and moves no other |
| Lists.SortIsStable | project2/thread.c:530-538 | sorting keeps the order of equally urgent threads |
| Lists.SortUnique | project2/thread.c:530-538 | order by priority and order among equals determine the list, so any stable sort gives the one the model uses |
| Lists.SortHead | project2/synch.c:135-147 | popping a sorted list takes the first of the most urgent threads |
| Parking.RunKeepsParking | project2/synch.c:85-156 | whatever a thread does next, waiters stay parked once each on their semaphore, and while threads wait the value is at most the number of woken threads that have not tested it again |
| Parking.OwnSemaphoreEmpty | project2/synch.c:324-337 | the semaphore that `cond_wait` initializes has no waiters |
| Ownership.RunKeepsOwnership | project2/synch.c:210-280 | whatever a thread does next, each lock's value and its owners still add up to one, and every holder field agrees with where its thread is |
| Ownership.CallKeepsOwnership | project2/synch.c:226-262 | entering a primitive under its assertions keeps that too |
| Ownership.NoHolder | project2/synch.c:241-243 | a thread past the semaphore of a lock finds no other holder recorded when it stores itself, even after another thread got in between |
| Donation.RunKeepsGraph | project2/synch.c:226-280 | whatever a thread does next, t is among h's donors exactly when t waits for a lock that h holds, donor lists have no repetition, and donors are parked on that lock |
| Donation.DonateKeepsGraph | project2/synch.c:232-240 | recording the wait, joining the holder's donors and parking are one consistent change |
| Donation.RemoveLockFrees | project2/thread.c:650-663 | `remove_lock` clears the wait of every thread that waits for the lock and of no other, and drops exactly those donors |
| Chains.ChainUnique | project2/thread.c:636-646 | the walk of `donate_priority` is determined by the holders and waits |
| Chains.DonationEndsIff | project2/thread.c:636-646 | the walk ends if and only if the donor is not on the holder's chain |
| Chains.RunKeepsAcyclic | project2/thread.c:636-646 | no step that completes creates a cycle of waits |
| Chains.RankRises | project2/thread.c:641-645 | along a chain the rank of the awaited lock strictly rises, if locks are acquired in rank order |
| Chains.RankedDonationEnds | project2/synch.c:226-240 | a thread that acquires in rank order closes no cycle, so its donation ends |
| Chains.RunKeepsRanked | project2/synch.c:226-280 | each step of threads that acquire in rank order keeps all waits in rank order |
| Priority.ResetIsHighest | project2/thread.c:667-681 | `reset_priority` leaves the highest of the thread's own priority and its donors' |
| Priority.ReleaseKeepsEffective | project2/synch.c:269-277 | after `lock_release` every thread's priority is again the highest of its own and its donors' |
| Priority.AssignKeepsEffective | project2/thread.c:363-369 | the same after `thread_set_priority`, with donors still counted |
| Priority.DonationTouchesChain | project2/thread.c:636-646 | a donation stores the donor's priority in the threads of the chain and in no other, and the chain is closed under waiting |
| Priority.DonationExactIff | project2/thread.c:636-646 | priorities that were exact are exact after a donation if and only if the donor is at least as high as every thread on its chain |
| Priority.RunKeepsEffectiveIff | project2/thread.c:636-681 | any step of a thread keeps exact priorities exact if and only if it is not a donation from below |
| Conditions.RunKeepsQueues | project2/synch.c:324-382 | whatever a thread does next, every thread in `cond_wait` is queued on the condition, about to be signalled, or signalled |
| Dispatch.ScheduleIs | project2/thread.c:530-538 | dispatch takes a ready thread of the highest current priority and leaves the others, sorted; with none ready it takes the idle thread |
| Dispatch.ScheduleIsFifo | project2/thread.c:530-538 | among equally urgent threads it takes the first on the ready list |
| Fifo.JoinsBehindIff | project2/thread.c:243-257 | a thread inserted by `compare` stands behind another if and only if nobody up to and including that other is less urgent |
| Fifo.StepInOrder | project2/thread.c:530-538 | in any step two ready threads whose priorities are then equal stay in order, the second is not dispatched while the first is left, and a thread that becomes ready stands behind its equals |
| Fifo.ReadyFifo | project2/thread.c:316-330 | over a run, while a thread stays ready, one that becomes ready later stands behind it and is not dispatched before it, for as long as they have the same priority |
| Fifo.ParksBehindIff | project2/synch.c:93-102 | a thread that parks stands behind a waiter if and only if no waiter up to and including that one is less urgent |
| Fifo.WaitersLeaveInOrder | project2/synch.c:135-156 | over a run, of two waiters whose priorities are equal whenever their semaphore is upped the one ahead in the queue is woken first |
| WakeOrder.LaterWokenFirst | project2/synch.c:85-156 | a run from boot in which a waiter that a donation has made as urgent as a later one stays on the semaphore while the later one is woken |
| Dispatch.AwakeIs | project1/thread.c:584-601 | `thread_awake` readies exactly the sleepers whose deadline has come, keeps the others in their order, and loses and doubles nobody |
| Dispatch.ActKeeps | project2/thread.c:226-257 | block, unblock, yield, sleep and the preemption check keep every thread in its one place and the ready list in order; after any of them but a plain return nobody ready is more urgent than the running thread |
| Dispatch.TickKeeps | project2/thread.c:125-142 | so does a timer interrupt, which leaves the time slice unfinished and dispatches afresh when it runs out |
| Invariant.RunKeeps | project2/synch.c:135-156 | a step inside a primitive keeps the whole invariant, and when `sema_up`, `thread_set_priority` or a block or yield is through, the running thread is at least as urgent as every ready one |
| Invariant.StepKeeps | project2/synch.c:85-382 | every event keeps the whole invariant |
| Invariant.EveryState | project2/synch.c:85-382 | it holds in every state of every run from boot, over any number of threads, locks and semaphores |
| Guarantees.OneList | project2/thread.h:71-76 | exactly one thread runs; the ready threads other than the idle one are the ready list; a thread is in at most one of the ready list, the sleeping list and all semaphore queues; every blocked thread but the idle one is in one of the latter two |
| Guarantees.ReadyInOrder | project2/thread.c:243-257 | at every step boundary the ready list is in order of current priority despite donations, without repetition, and the time slice is not used up |
| Guarantees.SleepsUntil | project1/timer.c:89-107 | the caller of `timer_sleep` blocks at the end of the sleeping list with the deadline it computed |
| Fifo.SleepersInOrder | project1/thread.c:584-601 | of two equally urgent sleepers due at the same interrupt the one that fell asleep first stands ahead afterwards, unless it has been dispatched |
| Turns.PreemptsIff | project2/thread.c:350-360 | after `sema_up` or `thread_set_priority` the caller still runs if and only if no thread that was ready or has been woken is above it |
| Turns.YieldTurn | project2/thread.c:316-330 | `thread_yield` lets the caller go on if and only if every ready thread is less urgent; otherwise the caller is ready |
| Turns.IdleTurn | project2/thread.c:438-456 | the idle thread gives the processor to a ready thread if there is one, and is then blocked |
| Turns.TickTurn | project2/thread.c:125-142 | a timer interrupt takes the processor from a thread if and only if its time slice is over and a thread that is ready, or due, is at least as urgent |
| Turns.ExitedIsGone | project2/thread.c:295-312 | over any run, a thread that has called `thread_exit` is dying in every later state: it does not run, is not ready, asleep or on a semaphore, and holds no lock |
| Calls.AcquireReturns | project2/synch.c:226-243 | from its call on the caller is inside `lock_acquire` until it is outside the primitives as the lock's recorded holder, whoever runs in between |
| Calls.TryReturns | project2/synch.c:250-262 | `lock_try_acquire` returns as the lock's holder if and only if its semaphore was up when it tried, and at once otherwise |
| Calls.WaitReturns | project2/synch.c:318-341 | `cond_wait` returns as the holder of its lock |
| Calls.WaitIsSignalled | project2/synch.c:318-341 | it gets past its `sema_down` only after a `cond_signal` on the same condition has chosen it |
| Calls.SignalReturns | project2/synch.c:352-366 | a `cond_signal` that has returned has signalled nobody if nobody was queued, and otherwise one thread, which alone has left the queue; its caller takes at most two steps |
| Calls.CallEffect | project2/synch.c:85-341 | over any call but a `try` one the caller's own steps take one from each lock's and each program's semaphore that the primitive downs and add one to each that it ups: one down for `sema_down` and `lock_acquire`, one up for `sema_up` and `lock_release`, both for the lock of `cond_wait`, none for the rest |
| Calls.ReturnsWithin | project2/synch.c:111-156 | the primitives that neither wait for a semaphore nor loop return after at most two steps of their caller |
| Guarantees.CreateInitializes | project2/thread.c:166-217 | a new thread starts outside the primitives with the priority it is given, without waits or donors; no other thread's point in the code or priority changes |
| Guarantees.CreatePreempts | project2/thread.c:207-215 | if the new thread is above its creator there is a dispatch, after which nobody ready is above the running thread, and the new thread runs if and only if every other ready thread is less urgent; otherwise it is ready and the creator goes on |
| Guarantees.SetPriorityIs | project2/thread.c:363-372 | the caller's own priority is the new one, its effective priority the highest of that and its donors', nobody else's priority changes, and nobody ready is above the running thread |
| Guarantees.MutualExclusion | project2/synch.c:210-280 | a lock's value plus the threads past its down and before its up is always one; a recorded holder is that one thread and the value is then zero |
| Guarantees.DonationLists | project2/synch.c:226-280 | donor lists are disjoint, and a thread that has got its lock, or runs, is on none |
| Guarantees.WakeupsArrive | project2/synch.c:85-156 | while threads wait, a positive value is covered by woken threads, none of which is blocked |
| Guarantees.UpWakesTopmost | project2/synch.c:135-156 | `sema_up` wakes the first in the queue of the waiters with the highest current priority, whatever was donated since they queued, raises the value by one, and leaves nobody ready above the running thread |
| Guarantees.SignalNotLost | project2/synch.c:337-341 | a thread signalled before it reaches its `sema_down` does not block there and goes on to reacquire the lock |
| Guarantees.WokenIsSignalled | project2/synch.c:337-341 | a thread that has left the queue of its semaphore in `cond_wait` finds it up, is off the condition's queue, and nobody is still to signal it |
| Conditions.RunKeepsSignalled | project2/synch.c:324-382 | whatever a thread does next, no thread in `cond_wait` is woken but by its signal |
| Guarantees.SignalTakesTopmost | project2/synch.c:352-366 | `cond_signal` takes one waiter, of the highest priority once all waiters are on their semaphores |
| SignalOrder.SignalTopmostIff | project2/synch.c:57-76 | every outcome of the sort makes `cond_signal` pick a most urgent waiter if and only if all waiters are on their semaphores or all are equally urgent |
| SignalOrder.LessUrgentSignalled | project2/synch.c:324-366 | a run from boot, with a waiter preempted between its `lock_release` and its `sema_down`, into a `cond_signal` that may pick a less urgent waiter |
| Runs.StepEffectiveIff | project2/thread.c:636-681 | any event keeps all priorities exact if and only if it does not donate from below |
| Runs.EffectiveThroughout | project2/thread.c:667-681 | in a run without donations from below every priority is always the highest of the thread's own and its donors' |
| Inheritance.StepDonatesIff | project2/synch.c:226-280 | after any event a thread in `lock_acquire` still waits for the lock in `waiting_lock` if and only if it did before and the lock has a recorded holder |
| Inheritance.DonatesIff | project2/synch.c:226-280 | over a run, a thread that has been in `lock_acquire` since its call is a donor of the lock's holder if and only if the lock has had a recorded holder in every state since |
| Inheritance.HolderInherits | project2/synch.c:226-280 | in a run from boot without donations from below a lock's holder is at least as urgent as each such thread for as long as that is so |
| Inheritance.HolderBelowWaiter | project2/thread.c:650-663 | a run from boot into a state where every priority is the highest of the thread's own and its donors', and a lock's holder is below a thread blocked on the lock |
| Runs.StuckIff | project2/thread.c:636-646 | in every reachable state a thread inside a primitive can go on, except exactly where its donation would walk a cycle |
| Deadlock.CycleCanClose | project2/thread.c:636-646 | a run from boot into a state where the running thread's donation would walk a cycle and cannot go on |
| Runs.RankedThroughout | project2/synch.c:226-280 | in a run that acquires locks in rank order all waits stay in rank order |
| Runs.RankedNeverStuck | project2/synch.c:226-243 | in such a run every acquisition in rank order can go on |
| Ranking.NeverACircle | project2/synch.c:226-280 | in such a run no threads in `lock_acquire` wait for locks of one another in a circle, whether or not they still donate |
| Runs.ValueAccount | project2/synch.c:85-156 | over any run in which it is not initialized anew, a semaphore's value is its first value plus the ups less the completed downs |
| Runs.OthersLeaveQueue | project2/synch.c:374-382 | while a thread broadcasts no other thread changes the condition's queue, although each `sema_up` may give the processor away |
| Runs.BroadcastConserves | project2/synch.c:374-382 | all through a broadcast the waiters signalled, the one in hand and the ones still queued are those present at its start |
| Runs.BroadcastSignalsAll | project2/synch.c:374-382 | when it has ended it has signalled exactly the threads that waited at its start, each once |
| Runs.BroadcastEnds | project2/synch.c:374-382 | a broadcast takes at most three steps of its own per waiter, and one more |
| Runs.BoundedGap | project2/thread.c:125-142 | in any stretch of a run with TIME_SLICE timer interrupts there is a moment when nobody ready is above the running thread |
| Runs.SleeperStep | project1/timer.c:180-186 | a step wakes a sleeper if and only if it is a timer interrupt whose tick has reached the sleeper's deadline |
| Runs.AlarmExact | project1/timer.c:89-107 | over a run, a sleeper is still asleep if and only if no tick since has reached its deadline |
| Runs.SleepExact | project1/timer.c:89-107 | from its call of `timer_sleep` on, once asleep a thread stays so exactly until a tick reaches the clock at the call plus the argument |
| Runs.SleepersAfterTick | project1/thread.c:584-601 | after each interrupt all sleepers have later deadlines and are in the order they were in |
| Lowering.HolderCanBeLowered | project2/thread.c:636-646 | a run from boot that leaves a holder below its own priority |
| Objects.Kernel.InsertOrdered | project2/thread.c:384-391 | the insertion loop yields the model's ordered insertion |
| Objects.Kernel.SortList | project2/thread.c:384-391 | sorting by insertion yields the model's stable sort |
| Objects.Kernel.NextThreadToRun | project2/thread.c:529-538 | the choice and the ready list are the model's dispatch |
| Objects.Kernel.ThreadBlock | project2/thread.c:226-233 | the objects are as the model's block leaves them |
| Objects.Kernel.ThreadUnblock | project2/thread.c:243-257 | the objects are as the model's unblock leaves them |
| Objects.Kernel.ThreadYield | project2/thread.c:316-330 | the objects are as the model's yield leaves them, the idle thread staying off the ready list |
| Objects.Kernel.StealRunningByPriority | project2/thread.c:350-360 | the running thread yields exactly when the head of the ready list is above it |
| Objects.Kernel.TimerSleep | project1/timer.c:89-107 | the caller joins the sleeping list with its deadline and blocks |
| Objects.Kernel.ThreadAwake | project2/thread.c:616-632 | the loop that removes from the list it walks does what the model's `thread_awake` does |
| Objects.Kernel.TimerInterrupt | project1/timer.c:180-186 | tick, time slice, wake-ups and the yield on return are the model's |
| Objects.Kernel.SemaDown | project2/synch.c:85-104 | one test of the loop queues and blocks, or decrements |
| Objects.Kernel.SemaTryDown | project2/synch.c:111-129 | the decrement happens exactly if the value was positive |
| Objects.Kernel.SemaUp | project2/synch.c:135-156 | sort, wake, increment and preemption check are the model's |
| Objects.Kernel.DonatePriority | project2/thread.c:636-646 | the loop follows the chain to its end, terminates, and stores the donor's priority in the threads of the chain and in no other |
| Objects.Kernel.RemoveLock | project2/thread.c:650-663 | the loop that removes donors from the list it walks frees exactly the threads that wait for the lock |
| Objects.Kernel.ResetPriority | project2/thread.c:667-681 | the priority and the sorted donors are the model's |
| Objects.Kernel.ThreadSetPriority | project2/thread.c:363-372 | both priorities, the reset and the preemption check are the model's |
| Objects.Kernel.LockAcquire | project2/synch.c:226-240 | with a holder the objects are as after donating and the first test of the semaphore; without one the caller goes on to `sema_down` and nothing else changes |
| Objects.Kernel.LockAcquired | project2/synch.c:240-243 | the wait is cleared, unless the lock was tried, and the holder stored |
| Objects.Kernel.LockRelease | project2/synch.c:269-277 | holder, donors and priority are the model's |
| Objects.Kernel.CondWait | project2/synch.c:324-340 | the caller is queued with a semaphore of zero, before it releases the lock |
| Objects.Kernel.SortWaiters | project2/synch.c:57-76 | once all waiters are on their semaphores the order is by priority; before that any order may come out |
| Objects.Kernel.CondSignal | project2/synch.c:352-366 | the first of the sorted waiters leaves the queue and is the one to be upped |
| Objects.Start | project2/thread.c:89-120 | creates the threads, semaphores, locks and condition variables; names and objects correspond one to one and show a boot state |
| Objects.Kernel.ThreadCreate | project2/thread.c:166-217 | with a page to spare the thread is initialized, made ready, and runs if it is above its creator, as in the machine; without one nothing changes |
| Objects.Kernel.Enter | project2/synch.c:85-382 | entering a primitive under its assertions takes objects that show a state to objects that show the next |
| Objects.Kernel.LinkedKeeps | project2/synch.c:85-382 | a step leads to no name without an object, so the methods can always be called again |
| Objects.Kernel.Run | project2/synch.c:85-382 | running the code of the current thread to its next switching point takes objects that show a state of the machine to objects that show the machine's next state |
| Objects.Kernel.Tick | project1/timer.c:180-186 | so does a timer interrupt |
| Objects.Kernel.Exit | project2/thread.c:295-312 | so does the end of a thread, which is then dying, not ready and not running |
| Segments.ValidateIff | project4/userprog/process.c:373-414 | the wrapping 32-bit checks accept exactly the segments that in exact arithmetic lie between page 0 and the kernel, start inside the file, and have agreeing page offsets |
| Segments.PlanExact | project4/userprog/process.c:322-343 | for an accepted segment nothing in the page arithmetic wraps; read and zero bytes add up to whole pages, the fewest that cover the segment, all below the kernel |
| Loaders.ConsumedNext | project4/userprog/process.c:434-466 | each iteration of `load_segment` takes exactly one page without underflow and makes the entry that describes it |
| Loading.EagerLoadsIff | project3/userprog/process.c:398-441 | the eager loader succeeds if and only if no two pages coincide, none is the stack page, the file has every byte, and frames and page tables suffice |
| Loading.EagerCount | project3/userprog/process.c:412-432 | no path loses a frame: mapped pages and free frames stay constant in sum |
| Loading.FirstInserted | project4/userprog/process.c:457-459 | where segments share a page the first entry stays |
| Loading.OffsetsExactIff | project4/userprog/process.c:434-466 | the entries of a segment point at its bytes if and only if its file part ends within the 32-bit range of offsets |
| Loading.WrongBytesHeader | project4/userprog/process.c:373-414 | a header with that defect that passes every check |
| Loading.WrapNeedsLongFile | project4/userprog/process.c:373-414 | such a header needs a file of more than 1 GiB |
| Loading.LazyRefinesEager | project4/userprog/process.c:603-634 | if the eager loader succeeds, so does the lazy one, and then every sequence of accesses to the program's pages is served, each page holding what the eager loader put there |
| Loading.ImageIsRight | project3/userprog/process.c:398-441 | byte i of a segment is the file's byte at p_offset + i for i below p_filesz and zero up to p_memsz, and the page is writable as the header says |
| Loading.LazyImageIsRight | project4/vm/page.c:84-92 | the same of every byte a program touches under demand paging, in any order |
| Loading.HeadersOkIff | project4/userprog/process.c:293-321 | the table of headers is accepted if and only if none is for a dynamic section, an interpreter or a shared library and each loadable segment lies in user memory and starts in the file |
| OnDemand.LazyServes | project4/userprog/process.c:603-634 | after any accesses, served or not, each page in memory is the stack page or what its entry asks for |
| OnDemand.LazyPageIsRight | project4/userprog/process.c:603-634 | a page that the first segment at its address asks for alike, once brought in, holds its segment's bytes, however few frames there were and whatever other accesses did |
| OnDemand.GetsItsPageIff | project4/userprog/process.c:434-466 | the program gets the page of a segment, whatever the file contains, if and only if the first segment at its address asks for as many bytes, from the same place within 32-bit offsets if there are any, with the same permission |
| OnDemand.WrongBytesTouched | project4/userprog/process.c:434-466 | a header that passes every check, refused by the eager loader; after the lazy load of it the program reads the first bytes of the file where it belongs 2^32 bytes into it |
| OnDemand.ServedIff | project4/userprog/process.c:603-634 | an access to a page whose entry is its own, and of which the file has all bytes, is served if and only if a frame and a page table can be had |
| OnDemand.StackIsReady | project4/userprog/process.c:472-504 | under either loader the page at the top of user memory is mapped writable and all zero, and stays so through any accesses to other pages |
| OnDemand.EntriesAlwaysFit | project4/userprog/process.c:603-634 | after loading and any accesses each entry is at its page's address, describes bytes and zeros that fill the page, and is marked as loaded if and only if the page is in memory |
| OnDemand.LazyCount | project4/userprog/process.c:603-634 | under demand paging too mapped pages and free frames stay constant in sum, after any accesses, served or not |
| OnDemand.StackHidesSegment | project4/userprog/process.c:472-504 | a header accepted by the lazy loader only, whose byte in the stack page reads as zero |
| Loaders.Process.Read | project4/vm/page.c:88-90 | a read is complete exactly if the file has the bytes, and then those are the bytes read |
| Loaders.Process.InsertVme | project4/vm/page.c:36-42 | an entry is added exactly if its address had none |
| Loaders.Process.FindVme | project4/vm/page.c:54-63 | the entry of the page that contains the address, if there is one |
| Loaders.Process.LoadFile | project4/vm/page.c:84-92 | it succeeds exactly if the file has the bytes, and then the frame holds them followed by zeros |
| Loaders.Process.InstallPage | project4/userprog/process.c:515-524 | a page is mapped exactly if the address had no mapping and a page table could be had |
| Loaders.Process.HandleMmFault | project4/userprog/process.c:603-634 | despite the double load a page of the executable is mapped with its bytes, or nothing changes and no frame is lost; a stack entry is reported as a failure, with a frame mapped as it is if the address had no mapping |
| Loaders.Process.LoadSegmentLazily | project4/userprog/process.c:426-468 | the loop over decreasing 32-bit counters inserts the entry of each page of the segment in order |
| Loaders.Process.LoadSegmentEagerly | project3/userprog/process.c:398-441 | the loop maps page after page, read in file order, and stops at the first that fails |
| Loaders.Process.SetupStackLazily | project4/userprog/process.c:472-504 | a writable zeroed page at the top of user memory, with an entry unless the address has one |
| Loaders.Process.LoadEagerly | project3/userprog/process.c:229-330 | success and address space are those of the specification, for any program headers |
| Loaders.Process.LoadLazily | project4/userprog/process.c:257-365 | success, entries and address space are those of the specification, for any program headers |
| Loaders.Process.PageFault | project4/userprog/exception.c:160-164 | a fault on an absent page of the executable is served as an access is in the specification; one on a stack entry is refused |
| CommandLine.TokensOfSpaced | project4/userprog/process.c:546-558 | words put together with any spacing are split into exactly those words |
| CommandLine.FirstWordIff | project4/userprog/process.c:526-531 | the program name is the first word if and only if the line does not start with a space |
| CommandLine.UsedFits | project4/userprog/process.c:561-590 | for a line under 256 bytes the stack image takes at most 784 bytes, and its closed form leaves the stack pointer at a multiple of four |
| CommandLine.PartsOfImage | project4/userprog/process.c:561-590 | return address, argc, argv, pointers, null pointer and strings lie one after another in the page, none overlapping |
| CommandLine.RoundTrip | project4/userprog/process.c:561-590 | a reader that starts from the stack pointer finds the words in order, a null pointer after the last, and a zero return address |
| ArgStack.StrtokR | project4/userprog/process.c:546-552 | splitting off one word in place yields the first word and leaves the rest to be split |
| ArgStack.ParseFilename | project4/userprog/process.c:526-531 | the buffer holds the part of the line before the first space |
| ArgStack.CountWords | project4/userprog/process.c:546-552 | the first loop counts the words |
| ArgStack.SplitWords | project4/userprog/process.c:553-559 | the second loop leaves in argv where each word is, with all words intact in the buffer |
| ArgStack.PushStrings | project4/userprog/process.c:561-570 | the strings are pushed last word first and argv holds their addresses on the stack |
| ArgStack.ConstructEsp | project4/userprog/process.c:533-592 | for every line under 256 bytes the page is the specified image, nothing below the final stack pointer is written, the pointer is aligned, and reading the arguments back gives the words of the line |
| Waiting.StepKeeps | project4/userprog/process.c:116-165 | every step of every process keeps each child in one of four phases: not waited for, its status being read, unlinked, reaped |
| Waiting.EveryState | project4/userprog/process.c:116-165 | so does every run |
| Waiting.WaitsAreExact | project4/userprog/process.c:116-134 | a wait that found its child returned the status that child exited with; every later wait for it, and every wait for a non-child, returned -1 |
| Waiting.WaitWaitsIff | project4/userprog/process.c:116-134 | a wait waits if and only if its argument is a child that no earlier wait has reaped, wherever it is in the list; any other returns -1 at once |
| Waiting.WaitResult | project4/userprog/process.c:116-134 | over a run, such a wait is under way until the caller's next result, which is for that child and is what the child passed to `exit` |
| Waiting.WaitReturnsExitStatus | project4/userprog/syscall.c:151-160 | in every run, what a child passed to `exit` is what the wait that found it returned |
| Waiting.ParentReapsFirst | project4/userprog/process.c:163-164 | a child finishes exiting only after its parent has its status and has unlinked it |
| Waiting.ChildAliveDuringWait | project4/userprog/process.c:124-130 | while a process waits for a child, the child's structure is not freed |
| Waiting.WaitProceedsIff | project4/userprog/process.c:126-126 | a waiting parent can go on if and only if the child has exited |
| Waiting.ExitProceedsIff | project4/userprog/process.c:164-164 | an exited child can go on if and only if its parent's wait for it has returned its status |
| Waiting.WaitsAreDowns | project4/userprog/process.c:126-126 | the waits for `child_lock` and `mem_lock` go on exactly where the scheduler's `sema_down` does not block, and leave the value it leaves |
| Waiting.AnnouncementsAreUps | project4/userprog/process.c:163-163 | the announcements leave the values that the scheduler's `sema_up` leaves |
| Processes.Start | project4/threads/thread.h:101-107 | creates the processes' structures with their semaphores at zero; they show a single process without children |
| Processes.Table.SpawnChild | project4/threads/thread.h:101-107 | a new child joins its creator's list with its semaphores at zero |
| Processes.Table.FindChild | project4/userprog/process.c:123-133 | the search finds a child exactly if it is in the list, and then the caller goes on to wait for it; otherwise the result is -1 |
| Processes.Table.AwaitExit | project4/userprog/process.c:126-126 | the down of `child_lock` leaves the structures as the handshake's step does |
| Processes.Table.ReadStatus | project4/userprog/process.c:127-127 | the status is the one in the child's structure |
| Processes.Table.UnlinkChild | project4/userprog/process.c:128-128 | the child alone leaves the list |
| Processes.Table.ReleaseChild | project4/userprog/process.c:127-130 | the value returned is the child's status |
| Processes.Table.RecordExit | project4/userprog/syscall.c:151-160 | the status is recorded before the child announces its exit |
| Processes.Table.AnnounceExit | project4/userprog/process.c:163-163 | the up of `child_lock` leaves the structures as the handshake's step does |
| Processes.Table.AwaitReaping | project4/userprog/process.c:164-164 | so does the down of `mem_lock` |

## Left out

- Context switching, stack frames, interrupt registration, page-directory hardware and assembly: a switch is a change of the running thread, which continues from its recorded point.
- `list.c`, `hash.c`, `palloc.c`, `file.c` and `string.c` are not part of the repository; their contracts are assumed (ordered insertion before the first smaller element, stable sort, a hash table as a map by page address, files as byte sequences, `strtok_r` and `strlcpy` as in C). A file position of 2^31 or more is treated as past the end of the file; as a signed offset it would be negative.
- Atomicity: testing the holder, donating and the first test of the semaphore (project2/synch.c:232-240) are one step, clearing the holder, `remove_lock` and `reset_priority` (274-277) are one step, and so are the stores of `thread_set_priority` with its preemption check, the sort and pop of `cond_signal`, the insertion of `cond_wait`, and the unblocking, test and yield of `thread_create`. They run with interrupts on, so the code alone does not make them so. The last two stores of `lock_acquire` are one step too; between `sema_down` and them any switch is possible.
- `compare` is applied to `donation_elem` nodes as well, from which it recovers the wrong address; the model compares the threads' priorities, which is what is meant.
- The page table is the map by page address that the commented-out body of `find_vme` describes; the code as written does not compile. The executable stays readable although `load` closes it.
- Loaders.Process.PageFault: a fault at an address without an entry is excluded; the code would dereference null.
- Machine integers: semaphore values, ticks and priorities are unbounded; loading and the stack use 32-bit words.
- Objects.Kernel.Run: the points of comparison with an empty semaphore are parameters (`place`, `garbled`), as is the chain of `donate_priority` as a ghost; a call whose donation would not end is excluded, and `Runs.StuckIff` says which those are.
- Guarantees.SignalTakesTopmost: promises the most urgent waiter only once all waiters are on their semaphores, because before that the code compares unrelated memory; `SignalOrder.SignalTopmostIff` is the exact condition.
- Objects.Kernel.LockAcquire: an acquisition that closes a cycle is excluded, as the call does not return; `Deadlock.CycleCanClose` reaches one.
- Objects.Kernel.DonatePriority: so is a walk along a cycle.
- Objects: threads are made of a fixed set of pages, a page is not used again after its thread has exited, and `tid_lock` inside `allocate_tid` is not taken; the caller names the new thread. The same holds of processes in `Processes`.
- A `cond_broadcast` without the lock, which the code accepts while the queue is empty and which then does nothing; with waiters its `cond_signal` asserts the lock.
- `Waiting`: `child_lock` and `mem_lock` are counters, whose waits and announcements are those of the scheduler's `sema_down` and `sema_up`; the priorities and queues of the processes waiting on them are not carried along.
- Failure of `malloc` for page entries and for the words of a command line, which the code does not check.
- Threads that exit holding locks, `sema_up` from interrupt handlers, and a condition variable used with two locks.
- Project 1's own ready list (first in, first out) and its `thread_set_priority`; the alarm clock is modelled on project 2's scheduler. Project 3's copy of the scheduler and its unfinished process code.
- Parsing program headers from file bytes and the checks of the executable header; the headers are parameters of the loaders.
- User writes to loaded pages, swapping, memory-mapped files, `vm_destroy`, system-call dispatch, file descriptors and pointer checks.
- The load handshake and the failure scan of `process_execute`; a parent that exits without waiting leaves its exited children where they are.
