/**
 The scheduler and the synchronization primitives as a state machine.

 A state has two parts: what the processor scheduling code keeps (Cpu) and what
 the synchronization code keeps (Sync). Threads, locks, semaphores and condition
 variables are named, and each field of the C structures is a map from names.

 Every step is a stretch of kernel code that no other thread can interleave
 with. Between two steps any thread switch is possible, so each thread carries
 the point of the code it will continue from (Pc).
 */
module Machine {
  import opened Lists

  datatype Option<+T> = None | Some(value: T)

  type Tid = int
  type LockId = int

  /** A semaphore is inside a lock, on the stack of a thread in cond_wait, or free-standing. */
  datatype Sema = OfLock(lock: LockId) | OfWaiter(waiter: Tid) | Named(name: int)

  /** A condition variable, with the one lock it is used with. */
  datatype Cond = Cond(name: int, lock: LockId)

  datatype Status = Running | Ready | Blocked | Dying

  /** What follows a lock_release: nothing, or the rest of a cond_wait. */
  datatype Then = Return | WaitOn(cond: Cond)

  /** Where a thread continues. */
  datatype Pc =
    | User                                    // outside these primitives
    | PlainDown(name: int, parked: bool)      // sema_down; parked: inside thread_block
    | PlainTry(name: int)                     // sema_try_down
    | PlainUp(name: int)                      // sema_up
    | Acquire(lock: LockId)                   // entry of lock_acquire
    | LockDown(lock: LockId, parked: bool)    // the sema_down of lock_acquire
    | TryAcquire(lock: LockId)                // entry of lock_try_acquire
    | Own(lock: LockId, tried: bool)          // the semaphore is down, holder not yet set
    | Release(lock: LockId, next: Then)       // entry of lock_release
    | ReleaseUp(lock: LockId, next: Then)     // holder cleared, the sema_up of lock_release
    | CondWait(cond: Cond)                    // entry of cond_wait
    | WaitDown(cond: Cond, parked: bool)      // the sema_down of cond_wait
    | Signal(cond: Cond, more: bool)          // cond_signal; more: called by cond_broadcast
    | SignalUp(cond: Cond, chosen: Tid, more: bool)  // the sema_up of cond_signal
    | Broadcast(cond: Cond)                   // the loop test of cond_broadcast
    | SetPriority(priority: int)              // thread_set_priority
    | Yield                                   // thread_yield
    | Sleep(deadline: int)                    // timer_sleep, after reading the clock
    | Asleep                                  // inside the thread_block of timer_sleep
    | IdleLoop                                // the idle thread's loop

  datatype Cpu = Cpu(
    idle: Tid,
    running: Tid,
    ready: seq<Tid>,
    sleeping: seq<Tid>,
    status: Total<Tid, Status>,
    wake: Total<Tid, int>,             // sleeping_ticks
    ticks: int,
    slice: nat)                        // thread_ticks

  datatype Sync = Sync(
    threads: set<Tid>,
    pc: Total<Tid, Pc>,
    prio: Total<Tid, int>,
    init: Total<Tid, int>,
    waiting: Total<Tid, Option<LockId>>,
    donations: Total<Tid, seq<Tid>>,
    value: Total<Sema, nat>,
    waiters: Total<Sema, seq<Tid>>,
    holder: Total<LockId, Option<Tid>>,
    queue: Total<Cond, seq<Tid>>)      // cond->waiters, by the thread each element belongs to

  datatype State = State(cpu: Cpu, sync: Sync)

  const TIME_SLICE := 4
  const PRI_MIN := 0
  const PRI_DEFAULT := 31
  const PRI_MAX := 63

  // ---------- the processor ----------

  /** schedule, next_thread_to_run and thread_schedule_tail. */
  ghost function Schedule(c: Cpu, prio: Total<Tid, int>): Cpu {
    if c.ready == [] then
      c.(running := c.idle, status := Put(c.status, c.idle, Running), slice := 0)
    else
      var q := Sort(prio, c.ready);
      c.(running := q[0], ready := q[1..], status := Put(c.status, q[0], Running), slice := 0)
  }

  /** thread_block. */
  ghost function Block(c: Cpu, prio: Total<Tid, int>): Cpu {
    Schedule(c.(status := Put(c.status, c.running, Blocked)), prio)
  }

  /** thread_yield up to its call of schedule; the idle thread is not queued. */
  ghost function Requeue(c: Cpu, prio: Total<Tid, int>): Cpu {
    c.(ready := if c.running == c.idle then c.ready else Insert(prio, c.ready, c.running),
       status := Put(c.status, c.running, Ready))
  }

  /** thread_yield. */
  ghost function YieldCpu(c: Cpu, prio: Total<Tid, int>): Cpu {
    Schedule(Requeue(c, prio), prio)
  }

  /** thread_unblock. */
  ghost function Unblock(c: Cpu, prio: Total<Tid, int>, t: Tid): Cpu {
    c.(ready := Insert(prio, c.ready, t), status := Put(c.status, t, Ready))
  }

  /** steal_running_by_priority. */
  ghost function Steal(c: Cpu, prio: Total<Tid, int>): Cpu {
    if c.ready != [] && prio(c.ready[0]) > prio(c.running) then YieldCpu(c, prio) else c
  }

  /** The sleepers whose deadline has come. */
  ghost function Due(c: Cpu): set<Tid> {
    set t | t in c.sleeping && c.wake(t) <= c.ticks
  }

  ghost function NotDue(c: Cpu): set<Tid> {
    set t | t in c.sleeping && c.wake(t) > c.ticks
  }

  /** thread_unblock of each thread of ts in turn. */
  ghost function UnblockAll(c: Cpu, prio: Total<Tid, int>, ts: seq<Tid>): (r: Cpu)
    decreases |ts|
  {
    if ts == [] then c else UnblockAll(Unblock(c, prio, ts[0]), prio, ts[1..])
  }

  /** thread_awake. */
  ghost function Awake(c: Cpu, prio: Total<Tid, int>): (r: Cpu) {
    UnblockAll(c.(sleeping := Filter(NotDue(c), c.sleeping)), prio, Filter(Due(c), c.sleeping))
  }

  /** timer_interrupt, and the yield on return that thread_tick may ask for. */
  ghost function TimerTick(c: Cpu, prio: Total<Tid, int>): Cpu {
    var c' := Awake(c.(ticks := c.ticks + 1, slice := c.slice + 1), prio);
    if c'.slice >= TIME_SLICE then YieldCpu(c', prio) else c'
  }

  /** What a step of the synchronization code asks of the processor. */
  datatype Action =
    | Stay
    | BlockIt
    | YieldIt
    | SleepIt(deadline: int)
    | WakeUp(chosen: Option<Tid>)  // thread_unblock, if anyone, then the preemption check

  ghost function Act(c: Cpu, prio: Total<Tid, int>, a: Action): Cpu {
    match a
    case Stay => c
    case BlockIt => Block(c, prio)
    case YieldIt => YieldCpu(c, prio)
    case SleepIt(d) => Block(c.(sleeping := c.sleeping + [c.running], wake := Put(c.wake, c.running, d)), prio)
    case WakeUp(None) => Steal(c, prio)
    case WakeUp(Some(t)) => Steal(Unblock(c, prio, t), prio)
  }

  // ---------- the synchronization code ----------

  /** The semaphore a thread at pc is inside sema_down of. */
  function DownOn(t: Tid, pc: Pc): Option<Sema> {
    match pc
    case PlainDown(n, _) => Some(Named(n))
    case LockDown(l, _) => Some(OfLock(l))
    case WaitDown(_, _) => Some(OfWaiter(t))
    case _ => None
  }

  /** t has called thread_block in the loop of sema_down(sm) and not tested the value since. */
  predicate ParkedOn(t: Tid, pc: Pc, sm: Sema) {
    DownOn(t, pc) == Some(sm) && pc.parked
  }

  function Park(pc: Pc): Pc {
    match pc
    case PlainDown(n, _) => PlainDown(n, true)
    case LockDown(l, _) => LockDown(l, true)
    case WaitDown(c, _) => WaitDown(c, true)
    case _ => pc
  }

  function AfterDown(pc: Pc): Pc {
    match pc
    case LockDown(l, _) => Own(l, false)
    case WaitDown(c, _) => Acquire(c.lock)
    case _ => User
  }

  /** The semaphore a thread at pc is about to sema_up. */
  function UpOn(pc: Pc): Option<Sema> {
    match pc
    case PlainUp(n) => Some(Named(n))
    case ReleaseUp(l, _) => Some(OfLock(l))
    case SignalUp(_, t, _) => Some(OfWaiter(t))
    case _ => None
  }

  function AfterUp(pc: Pc): Pc {
    match pc
    case ReleaseUp(_, WaitOn(c)) => WaitDown(c, false)
    case SignalUp(c, _, true) => Broadcast(c)
    case _ => User
  }

  /** r goes on to q and nothing else changes. */
  ghost function Move(y: Sync, r: Tid, q: Pc): Sync {
    y.(pc := Put(y.pc, r, q))
  }

  /** sema_down finding zero: queue behind the waiters at least as urgent, and block. */
  ghost function ParkAt(y: Sync, r: Tid, sm: Sema): Sync {
    y.(waiters := Put(y.waiters, sm, Insert(y.prio, y.waiters(sm), r)), pc := Put(y.pc, r, Park(y.pc(r))))
  }

  /** A semaphore decrement, after which r goes on to q. */
  ghost function Take(y: Sync, r: Tid, sm: Sema, q: Pc): Sync
    requires y.value(sm) > 0
  {
    y.(value := Put<Sema, nat>(y.value, sm, y.value(sm) - 1), pc := Put(y.pc, r, q))
  }

  /** One test of sema_down's loop. */
  ghost function Down(y: Sync, r: Tid, sm: Sema): (Sync, Action) {
    if y.value(sm) == 0 then (ParkAt(y, r, sm), BlockIt)
    else (Take(y, r, sm, AfterDown(y.pc(r))), Stay)
  }

  /** sema_try_down; got is where success leads. */
  ghost function Try(y: Sync, r: Tid, sm: Sema, got: Pc): Sync {
    if y.value(sm) > 0 then Take(y, r, sm, got) else Move(y, r, User)
  }

  /** sema_up: the most urgent waiter, if any, leaves the queue. */
  ghost function Up(y: Sync, r: Tid, sm: Sema): (Sync, Action) {
    var y' := y.(value := Put<Sema, nat>(y.value, sm, y.value(sm) + 1), pc := Put(y.pc, r, AfterUp(y.pc(r))));
    if y.waiters(sm) == [] then (y', WakeUp(None))
    else
      var q := Sort(y.prio, y.waiters(sm));
      (y'.(waiters := Put(y.waiters, sm, q[1..])), WakeUp(Some(q[0])))
  }

  /** path lists the threads donate_priority visits from h on: h, the holder of
      the lock h waits for, and so on to a thread that waits for no lock. */
  ghost predicate IsChain(waiting: Total<Tid, Option<LockId>>, holder: Total<LockId, Option<Tid>>, h: Tid,
      path: seq<Tid>)
    decreases |path|
  {
    && path != [] && path[0] == h
    && match waiting(h)
       case None => |path| == 1
       case Some(l) => |path| > 1 && holder(l).Some? && IsChain(waiting, holder, holder(l).value, path[1..])
  }

  /** The stores of donate_priority: every thread on path gets priority p. */
  ghost function Raise(prio: Total<Tid, int>, path: seq<Tid>, p: int): Total<Tid, int> {
    (t: Tid) => if t in path then p else prio(t)
  }

  /** lock_acquire with a holder h: record the wait, join h's donations, donate. */
  ghost function Donate(y: Sync, r: Tid, l: LockId, h: Tid, path: seq<Tid>): Sync {
    y.(waiting := Put(y.waiting, r, Some(l)),
       donations := Put(y.donations, h, Insert(y.prio, y.donations(h), r)),
       prio := Raise(y.prio, path, y.prio(r)))
  }

  /** lock_acquire: with a holder, donate and go on to the first test of the
      semaphore; without one, go on to sema_down. */
  ghost function StartAcquire(y: Sync, r: Tid, l: LockId, path: seq<Tid>): (Sync, Action) {
    var y' := Move(y, r, LockDown(l, false));
    match y.holder(l)
    case None => (y', Stay)
    case Some(h) => Down(Donate(y', r, l, h, path), r, OfLock(l))
  }

  /** The last two stores of lock_acquire, or the last of lock_try_acquire. */
  ghost function SetHolder(y: Sync, r: Tid, l: LockId, tried: bool): Sync {
    y.(pc := Put(y.pc, r, User), holder := Put(y.holder, l, Some(r)),
       waiting := if tried then y.waiting else Put(y.waiting, r, None))
  }

  /** The donors of r that wait for l, and those that wait for another lock. */
  ghost function Freed(y: Sync, r: Tid, l: LockId): set<Tid> {
    set t | t in y.donations(r) && y.waiting(t) == Some(l)
  }

  ghost function Kept(y: Sync, r: Tid, l: LockId): set<Tid> {
    set t | t in y.donations(r) && y.waiting(t) != Some(l)
  }

  /** remove_lock: the donors of r that wait for l stop waiting and donating. */
  ghost function RemoveLock(y: Sync, r: Tid, l: LockId): Sync {
    var freed := Freed(y, r, l);
    y.(waiting := (t: Tid) => if t in freed then None else y.waiting(t),
       donations := Put(y.donations, r, Filter(Kept(y, r, l), y.donations(r))))
  }

  /** reset_priority. */
  ghost function Reset(y: Sync, r: Tid): Sync {
    var prio := Put(y.prio, r, y.init(r));
    if y.donations(r) == [] then y.(prio := prio)
    else
      var q := Sort(prio, y.donations(r));
      y.(donations := Put(y.donations, r, q),
         prio := if prio(r) < prio(q[0]) then Put(prio, r, prio(q[0])) else prio)
  }

  /** lock_release before its sema_up. */
  ghost function Unhold(y: Sync, r: Tid, l: LockId, next: Then): Sync {
    Reset(RemoveLock(y.(holder := Put(y.holder, l, None), pc := Put(y.pc, r, ReleaseUp(l, next))), r, l), r)
  }

  /** thread_set_priority before its preemption check. */
  ghost function Assign(y: Sync, r: Tid, p: int): Sync {
    Reset(y.(pc := Put(y.pc, r, User), prio := Put(y.prio, r, p), init := Put(y.init, r, p)), r)
  }

  /** cond_wait before its lock_release; order is the queue after the insertion. */
  ghost function StartWait(y: Sync, r: Tid, c: Cond, order: seq<Tid>): Sync {
    y.(pc := Put(y.pc, r, Release(c.lock, WaitOn(c))), value := Put<Sema, nat>(y.value, OfWaiter(r), 0),
       waiters := Put(y.waiters, OfWaiter(r), []), queue := Put(y.queue, c, order))
  }

  /** cond_signal before its sema_up; order is the queue after the sort. */
  ghost function StartSignal(y: Sync, r: Tid, c: Cond, more: bool, order: seq<Tid>): Sync {
    if order == [] then Move(y, r, if more then Broadcast(c) else User)
    else y.(pc := Put(y.pc, r, SignalUp(c, order[0], more)), queue := Put(y.queue, c, order[1..]))
  }

  /** Each thread of ts is at the front of its own semaphore, where compare_sema looks for it. */
  ghost predicate Queued(y: Sync, ts: seq<Tid>) {
    forall t :: t in ts ==> y.waiters(OfWaiter(t)) == [t]
  }

  /** The sort of cond_signal compares garbage while some waiter is not yet on
      its semaphore; then it may leave the queue in any order. */
  ghost predicate SortedQueue(y: Sync, c: Cond, order: seq<Tid>) {
    && multiset(order) == multiset(y.queue(c))
    && (Queued(y, y.queue(c)) ==> order == Sort(y.prio, y.queue(c)))
  }

  /** cond_wait's insertion compares against an empty semaphore, so the new
      element may land anywhere; the others keep their order. */
  ghost predicate InsertedAnywhere(xs: seq<Tid>, t: Tid, order: seq<Tid>) {
    exists i :: 0 <= i <= |xs| && order == xs[..i] + [t] + xs[i..]
  }

  /** The outcomes the code can have: the walk donate_priority makes (none if it
      does not end) and the queue orders of cond_wait and cond_signal. */
  ghost predicate CanRun(y: Sync, r: Tid, path: seq<Tid>, order: seq<Tid>) {
    match y.pc(r)
    case User => false
    case Acquire(l) => y.holder(l).Some? ==> IsChain(Put(y.waiting, r, Some(l)), y.holder, y.holder(l).value, path)
    case CondWait(c) => InsertedAnywhere(y.queue(c), r, order)
    case Signal(c, _) => SortedQueue(y, c, order)
    case _ => true
  }

  /** What running thread r does next: the new state of the locks and
      semaphores, and what is asked of the processor. */
  ghost function Exec(y: Sync, r: Tid, path: seq<Tid>, order: seq<Tid>): (Sync, Action) {
    match y.pc(r)
    case User => (y, Stay)
    case PlainDown(n, _) => Down(y, r, Named(n))
    case LockDown(l, _) => Down(y, r, OfLock(l))
    case WaitDown(_, _) => Down(y, r, OfWaiter(r))
    case PlainUp(n) => Up(y, r, Named(n))
    case ReleaseUp(l, _) => Up(y, r, OfLock(l))
    case SignalUp(_, t, _) => Up(y, r, OfWaiter(t))
    case PlainTry(n) => (Try(y, r, Named(n), User), Stay)
    case TryAcquire(l) => (Try(y, r, OfLock(l), Own(l, true)), Stay)
    case Acquire(l) => StartAcquire(y, r, l, path)
    case Own(l, tried) => (SetHolder(y, r, l, tried), Stay)
    case Release(l, next) => (Unhold(y, r, l, next), Stay)
    case CondWait(c) => (StartWait(y, r, c, order), Stay)
    case Signal(c, more) => (StartSignal(y, r, c, more, order), Stay)
    case Broadcast(c) => (Move(y, r, if y.queue(c) == [] then User else Signal(c, true)), Stay)
    case SetPriority(p) => (Assign(y, r, p), WakeUp(None))
    case Yield => (Move(y, r, User), YieldIt)
    case Sleep(d) => (Move(y, r, Asleep), SleepIt(d))
    case Asleep => (Move(y, r, User), Stay)
    case IdleLoop => (y, BlockIt)
  }

  // ---------- steps ----------

  datatype Event =
    | Call(op: Pc)                               // the running thread enters a primitive
    | Run(path: seq<Tid>, order: seq<Tid>)       // the running thread goes on
    | Tick                                       // timer interrupt
    | Create(t: Tid, priority: int)              // thread_create by the running thread
    | Exit                                       // thread_exit by the running thread

  /** The primitives a thread may enter, with the assertions on their callers. */
  ghost predicate CallOk(y: Sync, r: Tid, op: Pc) {
    match op
    case PlainDown(_, parked) => !parked
    case PlainTry(_) => true
    case PlainUp(_) => true
    case Acquire(l) => y.holder(l) != Some(r)
    case TryAcquire(l) => y.holder(l) != Some(r)
    case Release(l, next) => y.holder(l) == Some(r) && next == Return
    case CondWait(c) => y.holder(c.lock) == Some(r)
    case Signal(c, more) => y.holder(c.lock) == Some(r) && !more
    case Broadcast(c) => y.holder(c.lock) == Some(r)
    case SetPriority(_) => true
    case Yield => true
    case Sleep(_) => true
    case _ => false
  }

  ghost predicate Enabled(s: State, e: Event) {
    var y, r := s.sync, s.cpu.running;
    match e
    case Call(op) => y.pc(r) == User && CallOk(y, r, op)
    case Run(path, order) => CanRun(y, r, path, order)
    case Tick => true
    case Create(t, p) => y.pc(r) == User && t !in y.threads && PRI_MIN <= p <= PRI_MAX
    case Exit => y.pc(r) == User && forall l :: y.holder(l) != Some(r)
  }

  /** init_thread. */
  ghost function AddThread(y: Sync, t: Tid, p: int): Sync {
    y.(threads := y.threads + {t}, pc := Put(y.pc, t, User), prio := Put(y.prio, t, p), init := Put(y.init, t, p),
       waiting := Put(y.waiting, t, None), donations := Put(y.donations, t, []))
  }

  /** thread_create once the new thread exists. */
  ghost function StartThread(c: Cpu, prio: Total<Tid, int>, t: Tid): Cpu {
    var c' := Unblock(c, prio, t);
    if prio(t) > prio(c.running) then YieldCpu(c', prio) else c'
  }

  ghost function Step(s: State, e: Event): State {
    var c, y, r := s.cpu, s.sync, s.cpu.running;
    match e
    case Call(op) => s.(sync := Move(y, r, op))
    case Run(path, order) =>
      var (y', a) := Exec(y, r, path, order);
      State(Act(c, y'.prio, a), y')
    case Tick => s.(cpu := TimerTick(c, y.prio))
    case Create(t, p) =>
      var y' := AddThread(y, t, p);
      State(StartThread(c, y'.prio, t), y')
    case Exit => s.(cpu := Schedule(c.(status := Put(c.status, r, Dying)), y.prio))
  }

  /** The step e from s is a sema_up of sm. */
  ghost predicate DoesUp(s: State, e: Event, sm: Sema) {
    e.Run? && UpOn(s.sync.pc(s.cpu.running)) == Some(sm)
  }

  /** After start-up: the main thread runs, the idle thread waits, nothing is taken. */
  ghost predicate Boot(s: State) {
    var c, y := s.cpu, s.sync;
    && c.running != c.idle && c.ready == [] && c.sleeping == [] && c.slice == 0
    && y.threads == {c.running, c.idle}
    && c.status(c.running) == Running && (forall t :: t != c.running ==> c.status(t) == Blocked)
    && y.pc(c.idle) == IdleLoop && (forall t :: t != c.idle ==> y.pc(t) == User)
    && y.prio == y.init
    && (forall t :: y.waiting(t) == None && y.donations(t) == [])
    && (forall sm :: y.waiters(sm) == [])
    && (forall l :: y.holder(l) == None && y.value(OfLock(l)) == 1)
    && (forall cv :: y.queue(cv) == [])
  }

  /** ss is a run: each state follows from the one before by an enabled event. */
  ghost predicate IsRun(ss: seq<State>, es: seq<Event>) {
    && |ss| == |es| + 1
    && forall i :: 0 <= i < |es| ==> Enabled(ss[i], es[i]) && ss[i + 1] == Step(ss[i], es[i])
  }
}
