/** Every thread is in its one place, and the most urgent ready thread is dispatched. */
module Dispatch {
  import opened Lists
  import opened Machine
  import opened Parking
  import opened Ownership
  import opened Donation

  /** The running thread alone has status Running. */
  ghost predicate OneRunning(c: Cpu) {
    c.status(c.running) == Running && forall t :: t != c.running ==> c.status(t) != Running
  }

  ghost predicate NoneRunning(c: Cpu) {
    forall t :: c.status(t) != Running
  }

  /** The ready list holds the ready threads, each once; the idle thread is never on it. */
  ghost predicate ReadyExact(c: Cpu) {
    && NoDup(c.ready)
    && forall t :: t in c.ready <==> c.status(t) == Ready && t != c.idle
  }

  /** Where a blocked thread is found. */
  ghost predicate Placed(c: Cpu, y: Sync, t: Tid) {
    || t == c.idle
    || (y.pc(t) == Asleep && t in c.sleeping)
    || (DownOn(t, y.pc(t)).Some? && y.pc(t).parked && t in y.waiters(DownOn(t, y.pc(t)).value))
  }

  /** The blocked threads are those asleep and those parked on semaphores, and the idle thread. */
  ghost predicate BlockedExact(c: Cpu, y: Sync) {
    && NoDup(c.sleeping)
    && (forall t :: t in c.sleeping ==> c.status(t) == Blocked && y.pc(t) == Asleep)
    && (forall sm, t :: t in y.waiters(sm) ==> c.status(t) == Blocked && t != c.idle)
    && (forall t :: t in y.threads && c.status(t) == Blocked ==> Placed(c, y, t))
  }

  ghost predicate IdleExact(c: Cpu, y: Sync) {
    && c.idle in y.threads
    && (forall t :: c.status(t) != Blocked ==> t in y.threads)
    && (forall t :: y.pc(t) == IdleLoop <==> t == c.idle)
  }

  /** All of the above that holds in the middle of a thread switch too. */
  ghost predicate Core(c: Cpu, y: Sync) {
    ReadyExact(c) && BlockedExact(c, y) && IdleExact(c, y)
  }

  ghost predicate Scheduled(c: Cpu, y: Sync) {
    OneRunning(c) && Core(c, y) && Descending(y.prio, c.ready)
  }

  /** A change of status that blocks and unblocks nobody but the idle thread. */
  lemma BlockedFrame(c: Cpu, c': Cpu, y: Sync)
    requires BlockedExact(c, y) && IdleExact(c, y)
    requires c'.idle == c.idle && c'.sleeping == c.sleeping
    requires forall t :: t != c.idle ==> (c'.status(t) == Blocked <==> c.status(t) == Blocked)
    ensures BlockedExact(c', y) && IdleExact(c', y)
  {
    assert c.idle !in c.sleeping;
    forall t | t in y.threads && c'.status(t) == Blocked ensures Placed(c', y, t) {
      assert t != c.idle ==> Placed(c, y, t);
    }
  }

  // ---------- schedule ----------

  /** A list with its most urgent element first, and the rest. */
  lemma HeadAndTail(prio: Total<Tid, int>, ts: seq<Tid>)
    requires ts != []
    ensures var q := Sort(prio, ts);
            && q[0] in ts && Descending(prio, q[1..])
            && multiset(ts) == multiset{q[0]} + multiset(q[1..])
            && (forall t :: t in ts ==> prio(t) <= prio(q[0]))
  {
    var q := Sort(prio, ts);
    SortHead(prio, ts);
    assert q == [q[0]] + q[1..];
    DropDescending(prio, q, 1);
  }

  /** schedule runs a most urgent ready thread, or the idle thread if none is ready. */
  lemma ScheduleIs(c: Cpu, prio: Total<Tid, int>)
    ensures var c' := Schedule(c, prio);
            && Descending(prio, c'.ready) && c'.slice == 0
            && (c.ready == [] ==> c'.running == c.idle && c'.ready == [])
            && (c.ready != [] ==>
                  && c'.running in c.ready
                  && multiset(c.ready) == multiset{c'.running} + multiset(c'.ready)
                  && (forall t :: t in c.ready ==> prio(t) <= prio(c'.running)))
  {
    if c.ready != [] {
      HeadAndTail(prio, c.ready);
    }
  }

  /** Among equally urgent threads, schedule runs the one that is first on the ready list. */
  lemma ScheduleIsFifo(c: Cpu, prio: Total<Tid, int>)
    requires c.ready != []
    ensures var next := Schedule(c, prio).running;
            Level(prio, c.ready, prio(next)) != [] && Level(prio, c.ready, prio(next))[0] == next
  {
    SortHead(prio, c.ready);
  }

  lemma ScheduleKeepsReady(c: Cpu, prio: Total<Tid, int>)
    requires ReadyExact(c) && NoneRunning(c)
    ensures OneRunning(Schedule(c, prio)) && ReadyExact(Schedule(c, prio))
  {
    if c.ready != [] {
      var q := Sort(prio, c.ready);
      SortMembers(prio, c.ready);
      NoDupSort(prio, c.ready);
      NoDupTail(q);
      var h := q[0];
      assert h in q;
    }
  }

  lemma ScheduleKeeps(c: Cpu, y: Sync)
    requires Core(c, y) && NoneRunning(c)
    ensures Scheduled(Schedule(c, y.prio), y)
  {
    var c' := Schedule(c, y.prio);
    ScheduleIs(c, y.prio);
    ScheduleKeepsReady(c, y.prio);
    assert c.ready != [] ==> c.status(c'.running) == Ready;
    BlockedFrame(c, c', y);
  }

  /** After a dispatch nobody ready is more urgent than the running thread. */
  ghost predicate Topmost(c: Cpu, prio: Total<Tid, int>) {
    forall t :: t in c.ready ==> prio(t) <= prio(c.running)
  }

  lemma ScheduleTopmost(c: Cpu, prio: Total<Tid, int>)
    ensures Topmost(Schedule(c, prio), prio)
  {
    var c' := Schedule(c, prio);
    ScheduleIs(c, prio);
    forall t | t in c'.ready ensures prio(t) <= prio(c'.running) {
      assert t in multiset(c'.ready);
      assert t in multiset(c.ready);
    }
  }

  // ---------- yield and preemption ----------

  lemma RequeueKeeps(c: Cpu, y: Sync, prio: Total<Tid, int>)
    requires OneRunning(c) && Core(c, y)
    ensures Core(Requeue(c, prio), y) && NoneRunning(Requeue(c, prio))
  {
    var c' := Requeue(c, prio);
    InsertMembers(prio, c.ready, c.running);
    if c.running != c.idle {
      NoDupInsert(prio, c.ready, c.running);
    }
    BlockedFrame(c, c', y);
  }

  lemma YieldKeeps(c: Cpu, y: Sync)
    requires OneRunning(c) && Core(c, y)
    ensures Scheduled(YieldCpu(c, y.prio), y) && Topmost(YieldCpu(c, y.prio), y.prio)
  {
    RequeueKeeps(c, y, y.prio);
    ScheduleKeeps(Requeue(c, y.prio), y);
    ScheduleTopmost(Requeue(c, y.prio), y.prio);
  }

  /** The preemption check looks at the first ready thread only, which is enough
      because the list is in order. */
  lemma StealKeeps(c: Cpu, y: Sync)
    requires Scheduled(c, y)
    ensures Scheduled(Steal(c, y.prio), y) && Topmost(Steal(c, y.prio), y.prio)
  {
    if c.ready != [] && y.prio(c.ready[0]) > y.prio(c.running) {
      YieldKeeps(c, y);
    } else {
      forall t | t in c.ready ensures y.prio(t) <= y.prio(c.running) {
        var i :| 0 <= i < |c.ready| && c.ready[i] == t;
      }
    }
  }

  // ---------- what a step of the running thread does to the queues ----------

  ghost predicate SameQueues(y: Sync, y': Sync) {
    forall sm, t :: t in y'.waiters(sm) <==> t in y.waiters(sm)
  }

  /** y' differs from y, for the scheduler, in r only. */
  ghost predicate OnlyMoves(y: Sync, y': Sync, r: Tid) {
    && y'.threads == y.threads
    && (forall t :: t != r ==> y'.pc(t) == y.pc(t))
    && (y'.pc(r) == IdleLoop <==> y.pc(r) == IdleLoop)
  }

  ghost predicate SamePrioBut(y: Sync, y': Sync, r: Tid) {
    forall t :: t != r ==> y'.prio(t) == y.prio(t)
  }

  /** What the requested action says about the change of the queues. */
  ghost predicate Fits(y: Sync, y': Sync, r: Tid, a: Action) {
    && OnlyMoves(y, y', r)
    && match a
       case Stay => SameQueues(y, y') && SamePrioBut(y, y', r)
       case YieldIt => SameQueues(y, y') && SamePrioBut(y, y', r)
       case SleepIt(_) => SameQueues(y, y') && y'.pc(r) == Asleep
       case WakeUp(None) => SameQueues(y, y') && SamePrioBut(y, y', r)
       case WakeUp(Some(u)) =>
         && SamePrioBut(y, y', r)
         && (forall sm, t :: t in y'.waiters(sm) <==> t in y.waiters(sm) && t != u)
         && (exists sm :: u in y.waiters(sm))
       case BlockIt =>
         || (y'.pc(r) == IdleLoop && SameQueues(y, y'))
         || (&& DownOn(r, y'.pc(r)).Some? && y'.pc(r).parked
             && forall sm, t :: t in y'.waiters(sm) <==>
                  t in y.waiters(sm) || (t == r && DownOn(r, y'.pc(r)) == Some(sm)))
  }

  lemma DownFits(y: Sync, r: Tid, sm: Sema)
    requires DownOn(r, y.pc(r)) == Some(sm)
    ensures Fits(y, Down(y, r, sm).0, r, Down(y, r, sm).1)
  {
    InsertMembers(y.prio, y.waiters(sm), r);
  }

  lemma UpFits(y: Sync, r: Tid, sm: Sema)
    requires Parked(y) && UpOn(y.pc(r)) == Some(sm)
    ensures Fits(y, Up(y, r, sm).0, r, Up(y, r, sm).1)
  {
    var y' := Up(y, r, sm).0;
    if y.waiters(sm) != [] {
      Popped(y, sm);
      var u := Sort(y.prio, y.waiters(sm))[0];
      assert u in y.waiters(sm);
      forall s, t ensures t in y'.waiters(s) <==> t in y.waiters(s) && t != u {
        if s != sm && t in y.waiters(s) {
          assert ParkedOn(t, y.pc(t), s) && ParkedOn(u, y.pc(u), sm);
        }
      }
    }
  }

  lemma StartAcquireFits(y: Sync, r: Tid, l: LockId, path: seq<Tid>)
    requires Exclusive(y) && Held(y) && y.pc(r) == Acquire(l)
    ensures Fits(y, StartAcquire(y, r, l, path).0, r, StartAcquire(y, r, l, path).1)
  {
    if y.holder(l).Some? {
      OwnedIsZero(y, l, y.holder(l).value);
      var y1 := Donate(Move(y, r, LockDown(l, false)), r, l, y.holder(l).value, path);
      InsertMembers(y1.prio, y.waiters(OfLock(l)), r);
    }
  }

  /** A move that leaves queues and priorities alone asks for a preemption check at most. */
  lemma MoveFits(y: Sync, y': Sync, r: Tid, q: Pc, a: Action)
    requires y'.pc == Put(y.pc, r, q) && y'.threads == y.threads
    requires y.pc(r) != IdleLoop && q != IdleLoop
    requires y'.waiters == y.waiters && y'.prio == y.prio
    requires a == Stay || a == YieldIt || (a.SleepIt? && q == Asleep)
    ensures Fits(y, y', r, a)
  {
  }

  lemma StartWaitFits(y: Sync, r: Tid, c: Cond, order: seq<Tid>)
    requires Parked(y) && Active(y, r) && y.pc(r) == CondWait(c)
    ensures Fits(y, StartWait(y, r, c, order), r, Stay)
  {
    OwnSemaphoreEmpty(y, r);
  }

  lemma ReleaseFits(y: Sync, r: Tid, l: LockId, next: Then)
    requires y.pc(r) == Release(l, next)
    ensures Fits(y, Unhold(y, r, l, next), r, Stay)
  {
    hide Sort, Filter, Freed, Kept;
  }

  lemma AssignFits(y: Sync, r: Tid, p: int)
    requires y.pc(r) == SetPriority(p)
    ensures Fits(y, Assign(y, r, p), r, WakeUp(None))
  {
  }

  lemma RunFits(y: Sync, r: Tid, path: seq<Tid>, order: seq<Tid>)
    requires Parked(y) && Active(y, r) && Exclusive(y) && Held(y) && y.pc(r) != User
    ensures Fits(y, Exec(y, r, path, order).0, r, Exec(y, r, path, order).1)
  {
    hide Parked, Active, Exclusive, Held;
    var (y', a) := Exec(y, r, path, order);
    match y.pc(r) {
      case PlainDown(n, _) => DownFits(y, r, Named(n));
      case LockDown(l, _) => DownFits(y, r, OfLock(l));
      case WaitDown(_, _) => DownFits(y, r, OfWaiter(r));
      case PlainUp(n) => UpFits(y, r, Named(n));
      case ReleaseUp(l, _) => UpFits(y, r, OfLock(l));
      case SignalUp(_, t, _) => UpFits(y, r, OfWaiter(t));
      case PlainTry(n) => MoveFits(y, y', r, User, a);
      case TryAcquire(l) => MoveFits(y, y', r, y'.pc(r), a);
      case Acquire(l) => StartAcquireFits(y, r, l, path);
      case Own(l, tried) => MoveFits(y, y', r, User, a);
      case Release(l, next) => ReleaseFits(y, r, l, next);
      case CondWait(c) => StartWaitFits(y, r, c, order);
      case Signal(c, more) => MoveFits(y, y', r, y'.pc(r), a);
      case Broadcast(c) => MoveFits(y, y', r, y'.pc(r), a);
      case SetPriority(p) => AssignFits(y, r, p);
      case Yield => MoveFits(y, y', r, User, a);
      case Sleep(d) => MoveFits(y, y', r, Asleep, a);
      case Asleep => MoveFits(y, y', r, User, a);
      case IdleLoop => IdleFits(y, r);
    }
  }

  lemma IdleFits(y: Sync, r: Tid)
    requires y.pc(r) == IdleLoop
    ensures Fits(y, y, r, BlockIt)
  {
  }

  // ---------- the running thread's step ----------

  /** A running thread is in no queue. */
  lemma RunningIsActive(c: Cpu, y: Sync)
    requires OneRunning(c) && Core(c, y)
    ensures Active(y, c.running) && c.running !in c.ready && c.running !in c.sleeping
  {
  }

  /** r moves on without blocking. */
  lemma StayKeeps(c: Cpu, y: Sync, y': Sync)
    requires Scheduled(c, y) && OnlyMoves(y, y', c.running) && SameQueues(y, y') && SamePrioBut(y, y', c.running)
    ensures Scheduled(c, y')
  {
    RunningIsActive(c, y);
    forall t | t in y'.threads && c.status(t) == Blocked ensures Placed(c, y', t) {
      assert Placed(c, y, t);
    }
    SameOrder(y.prio, y'.prio, c.ready);
  }

  lemma SameOrder(prio: Total<Tid, int>, prio': Total<Tid, int>, ts: seq<Tid>)
    requires Descending(prio, ts) && forall t :: t in ts ==> prio'(t) == prio(t)
    ensures Descending(prio', ts)
  {
    forall i, j | 0 <= i < j < |ts| ensures prio'(ts[i]) >= prio'(ts[j]) {
      var a, b := ts[i], ts[j];
      assert a in ts && b in ts;
    }
  }

  lemma BlockKeeps(c: Cpu, y: Sync, y': Sync)
    requires Scheduled(c, y) && Fits(y, y', c.running, BlockIt)
    ensures Scheduled(Block(c, y'.prio), y')
  {
    RunningIsActive(c, y);
    var c1 := c.(status := Put(c.status, c.running, Blocked));
    forall t | t in y'.threads && c1.status(t) == Blocked ensures Placed(c1, y', t) {
      assert t != c.running ==> Placed(c, y, t);
    }
    ScheduleKeeps(c1, y');
  }

  lemma SleepKeeps(c: Cpu, y: Sync, y': Sync, d: int)
    requires Scheduled(c, y) && Fits(y, y', c.running, SleepIt(d))
    ensures Scheduled(Act(c, y'.prio, SleepIt(d)), y')
  {
    RunningIsActive(c, y);
    var r := c.running;
    var c1 := c.(sleeping := c.sleeping + [r], wake := Put(c.wake, r, d), status := Put(c.status, r, Blocked));
    SleepAppends(c.sleeping, r);
    forall t | t in y'.threads && c1.status(t) == Blocked ensures Placed(c1, y', t) {
      assert t != r ==> Placed(c, y, t);
    }
    ScheduleKeeps(c1, y');
  }

  lemma SleepAppends(ts: seq<Tid>, r: Tid)
    requires NoDup(ts) && r !in ts
    ensures NoDup(ts + [r])
  {
    forall t | t in ts + [r] ensures multiset(ts + [r])[t] == 1 {
      assert r !in multiset(ts);
      assert t in ts ==> multiset(ts)[t] == 1;
    }
  }

  /** thread_unblock puts a blocked thread on the ready list, in order. */
  lemma UnblockReady(c: Cpu, prio: Total<Tid, int>, u: Tid)
    requires OneRunning(c) && ReadyExact(c) && Descending(prio, c.ready) && c.status(u) == Blocked && u != c.idle
    ensures var c' := Unblock(c, prio, u); OneRunning(c') && ReadyExact(c') && Descending(prio, c'.ready)
  {
    InsertMembers(prio, c.ready, u);
    NoDupInsert(prio, c.ready, u);
    InsertDescending(prio, c.ready, u);
  }

  /** thread_unblock of a thread that sema_up took from its queue. */
  lemma UnblockKeeps(c: Cpu, y: Sync, y': Sync, u: Tid)
    requires Scheduled(c, y) && Parked(y) && Fits(y, y', c.running, WakeUp(Some(u)))
    ensures Scheduled(Unblock(c, y'.prio, u), y')
    ensures c.status(u) == Blocked
  {
    RunningIsActive(c, y);
    var sm :| u in y.waiters(sm);
    assert c.status(u) == Blocked && u != c.idle;
    SameOrder(y.prio, y'.prio, c.ready);
    UnblockReady(c, y'.prio, u);
    UnblockPlaced(c, y, y', u, sm);
  }

  lemma UnblockPlaced(c: Cpu, y: Sync, y': Sync, u: Tid, sm: Sema)
    requires OneRunning(c) && BlockedExact(c, y) && IdleExact(c, y) && Parked(y)
    requires Fits(y, y', c.running, WakeUp(Some(u))) && u in y.waiters(sm)
    ensures BlockedExact(Unblock(c, y'.prio, u), y') && IdleExact(Unblock(c, y'.prio, u), y')
  {
    var c1 := Unblock(c, y'.prio, u);
    assert ParkedOn(u, y.pc(u), sm);
    assert u !in c.sleeping;
    forall t | t in y'.threads && c1.status(t) == Blocked ensures Placed(c1, y', t) {
      assert Placed(c, y, t);
    }
  }

  /** The running thread's step keeps everything in place; and if it ends in the
      preemption check, nobody ready is more urgent than who runs then. */
  lemma ActKeeps(c: Cpu, y: Sync, y': Sync, a: Action)
    requires Scheduled(c, y) && Parked(y) && Fits(y, y', c.running, a)
    ensures Scheduled(Act(c, y'.prio, a), y')
    ensures a != Stay ==> Topmost(Act(c, y'.prio, a), y'.prio)
  {
    match a {
      case Stay => StayKeeps(c, y, y');
      case BlockIt =>
        BlockKeeps(c, y, y');
        ScheduleTopmost(c.(status := Put(c.status, c.running, Blocked)), y'.prio);
      case YieldIt =>
        StayKeeps(c, y, y');
        YieldKeeps(c, y');
      case SleepIt(d) =>
        SleepKeeps(c, y, y', d);
        var r := c.running;
        ScheduleTopmost(c.(sleeping := c.sleeping + [r], wake := Put(c.wake, r, d), status := Put(c.status, r,
            Blocked)), y'.prio);
      case WakeUp(None) =>
        StayKeeps(c, y, y');
        StealKeeps(c, y');
      case WakeUp(Some(u)) =>
        UnblockKeeps(c, y, y', u);
        StealKeeps(Unblock(c, y'.prio, u), y');
    }
  }

  // ---------- the timer interrupt ----------

  /** thread_unblock of several threads, one after the other. */
  lemma {:induction false} UnblockAllIs(c: Cpu, prio: Total<Tid, int>, ts: seq<Tid>)
    ensures var r := UnblockAll(c, prio, ts);
            && multiset(r.ready) == multiset(c.ready) + multiset(ts)
            && (forall t :: r.status(t) == if t in ts then Ready else c.status(t))
            && r == c.(ready := r.ready, status := r.status)
            && (Descending(prio, c.ready) ==> Descending(prio, r.ready))
    decreases |ts|
  {
    if ts != [] {
      var t := ts[0];
      var c1 := Unblock(c, prio, t);
      UnblockAllIs(c1, prio, ts[1..]);
      assert ts == [t] + ts[1..];
      assert multiset(ts) == multiset{t} + multiset(ts[1..]);
      if Descending(prio, c.ready) {
        InsertDescending(prio, c.ready, t);
      }
    }
  }

  /** thread_awake wakes exactly the sleepers whose deadline has come, and keeps
      the others in order. */
  lemma AwakeIs(c: Cpu, y: Sync)
    requires Core(c, y)
    ensures var c' := Awake(c, y.prio);
            && c' == c.(ready := c'.ready, status := c'.status, sleeping := c'.sleeping)
            && c'.sleeping == Filter(NotDue(c), c.sleeping)
            && (forall t :: t in c'.sleeping <==> t in c.sleeping && c.wake(t) > c.ticks)
            && (forall t :: t in c'.ready <==> t in c.ready || (t in c.sleeping && c.wake(t) <= c.ticks))
            && (forall t :: c'.status(t) == if t in c.sleeping && c.wake(t) <= c.ticks then Ready else c.status(t))
            && (Descending(y.prio, c.ready) ==> Descending(y.prio, c'.ready))
            && NoDup(c'.ready) && NoDup(c'.sleeping)
  {
    var due, left := Filter(Due(c), c.sleeping), Filter(NotDue(c), c.sleeping);
    FilterMembers(Due(c), c.sleeping);
    FilterMembers(NotDue(c), c.sleeping);
    NoDupFilter(Due(c), c.sleeping);
    NoDupFilter(NotDue(c), c.sleeping);
    var c1 := c.(sleeping := left);
    UnblockAllIs(c1, y.prio, due);
    var c' := Awake(c, y.prio);
    SameMembers(c'.ready, c.ready + due);
    Disjoint(c.ready, due, c'.ready);
  }

  lemma Disjoint(a: seq<Tid>, b: seq<Tid>, r: seq<Tid>)
    requires NoDup(a) && NoDup(b) && multiset(r) == multiset(a) + multiset(b)
    requires forall t :: t in a ==> t !in b
    ensures NoDup(r)
  {
    forall t | t in r ensures multiset(r)[t] == 1 {
      assert t in multiset(r);
      assert t in a ==> multiset(a)[t] == 1 && t !in multiset(b);
      assert t in b ==> multiset(b)[t] == 1 && t !in multiset(a);
      assert t in multiset(a) || t in multiset(b);
    }
  }

  lemma AwakeKeeps(c: Cpu, y: Sync)
    requires Scheduled(c, y) && Parked(y)
    ensures Scheduled(Awake(c, y.prio), y)
  {
    var c' := Awake(c, y.prio);
    AwakeIs(c, y);
    assert OneRunning(c');
    assert ReadyExact(c');
    AwakePlaced(c, c', y);
  }

  lemma AwakePlaced(c: Cpu, c': Cpu, y: Sync)
    requires BlockedExact(c, y) && IdleExact(c, y) && Parked(y) && c'.idle == c.idle && NoDup(c'.sleeping)
    requires forall t :: t in c'.sleeping <==> t in c.sleeping && c.wake(t) > c.ticks
    requires forall t :: c'.status(t) == if t in c.sleeping && c.wake(t) <= c.ticks then Ready else c.status(t)
    ensures BlockedExact(c', y) && IdleExact(c', y)
  {
    forall t | t in y.threads && c'.status(t) == Blocked ensures Placed(c', y, t) {
      assert Placed(c, y, t);
    }
    forall sm, t | t in y.waiters(sm) ensures c'.status(t) == Blocked && t != c'.idle {
      assert c.status(t) == Blocked && t != c.idle && ParkedOn(t, y.pc(t), sm);
    }
    assert forall t :: t in c.sleeping ==> t in y.threads;
  }

  lemma TickKeeps(c: Cpu, y: Sync)
    requires Scheduled(c, y) && Parked(y)
    ensures Scheduled(TimerTick(c, y.prio), y)
    ensures TimerTick(c, y.prio).slice < TIME_SLICE
    ensures c.slice + 1 >= TIME_SLICE ==> Topmost(TimerTick(c, y.prio), y.prio)
  {
    var c1 := c.(ticks := c.ticks + 1, slice := c.slice + 1);
    BlockedFrame(c, c1, y);
    AwakeIs(c1, y);
    AwakeKeeps(c1, y);
    if c1.slice >= TIME_SLICE {
      YieldKeeps(Awake(c1, y.prio), y);
    }
  }

  // ---------- creation and exit ----------

  lemma StartThreadKeeps(c: Cpu, y: Sync, t: Tid, p: int)
    requires Scheduled(c, y) && Parked(y) && t !in y.threads
    ensures Scheduled(StartThread(c, AddThread(y, t, p).prio, t), AddThread(y, t, p))
  {
    hide Scheduled, Parked, Core, OneRunning, Descending;
    var y' := AddThread(y, t, p);
    NewcomerReady(c, y, t, p);
    if y'.prio(t) > y'.prio(c.running) {
      ScheduledParts(Unblock(c, y'.prio, t), y');
      YieldKeeps(Unblock(c, y'.prio, t), y');
    }
  }

  lemma ScheduledParts(c: Cpu, y: Sync)
    requires Scheduled(c, y)
    ensures OneRunning(c) && Core(c, y) && Descending(y.prio, c.ready)
  {
  }

  /** thread_create before its preemption check. */
  lemma NewcomerReady(c: Cpu, y: Sync, t: Tid, p: int)
    requires Scheduled(c, y) && Parked(y) && t !in y.threads
    ensures Scheduled(Unblock(c, AddThread(y, t, p).prio, t), AddThread(y, t, p))
  {
    hide BlockedExact, Insert, Descending;
    var y' := AddThread(y, t, p);
    SameOrder(y.prio, y'.prio, c.ready);
    UnblockReady(c, y'.prio, t);
    AddPlaced(c, Unblock(c, y'.prio, t), y, t, p);
  }

  lemma AddPlaced(c: Cpu, c1: Cpu, y: Sync, t: Tid, p: int)
    requires BlockedExact(c, y) && IdleExact(c, y) && Parked(y) && t !in y.threads
    requires c1 == Unblock(c, Put(y.prio, t, p), t)
    ensures BlockedExact(c1, AddThread(y, t, p)) && IdleExact(c1, AddThread(y, t, p))
  {
    var y' := AddThread(y, t, p);
    assert y.pc(t) == User;
    assert t !in c.sleeping;
    forall u | u in y'.threads && c1.status(u) == Blocked ensures Placed(c1, y', u) {
      assert Placed(c, y, u);
    }
  }

  lemma ExitKeeps(c: Cpu, y: Sync)
    requires Scheduled(c, y)
    ensures Scheduled(Schedule(c.(status := Put(c.status, c.running, Dying)), y.prio), y)
  {
    RunningIsActive(c, y);
    var c1 := c.(status := Put(c.status, c.running, Dying));
    forall t | t in y.threads && c1.status(t) == Blocked ensures Placed(c1, y, t) {
      assert Placed(c, y, t);
    }
    ScheduleKeeps(c1, y);
  }
}
