/** What the kernel's invariant means for its users, and what holds over whole runs. */
module Guarantees {
  import opened Lists
  import opened Machine
  import opened Parking
  import opened Ownership
  import opened Donation
  import opened Chains
  import opened Priority
  import opened Conditions
  import opened Dispatch
  import opened Invariant
  import opened Fifo

  // ---------- one thread, one list ----------

  /** Among the ready list, the sleeping list and all semaphore queues, a thread is in one
      at most; a blocked thread other than the idle thread is in exactly one; and no list
      holds the running thread. */
  lemma OneList(s: State, t: Tid)
    requires Reachable(s)
    ensures s.cpu.status(t) == Running <==> t == s.cpu.running
    ensures t in s.cpu.ready <==> s.cpu.status(t) == Ready && t != s.cpu.idle
    ensures t in s.cpu.ready ==> t !in s.cpu.sleeping && forall sm :: t !in s.sync.waiters(sm)
    ensures t in s.cpu.sleeping ==> s.cpu.status(t) == Blocked && forall sm :: t !in s.sync.waiters(sm)
    ensures forall sm, sn :: t in s.sync.waiters(sm) && t in s.sync.waiters(sn) ==> sm == sn
    ensures forall sm :: t in s.sync.waiters(sm) ==> s.cpu.status(t) == Blocked
    ensures t in s.sync.threads && t != s.cpu.idle && s.cpu.status(t) == Blocked ==>
              t in s.cpu.sleeping || exists sm :: t in s.sync.waiters(sm)
  {
    ReachableInv(s);
    var c, y := s.cpu, s.sync;
    forall sm | t in y.waiters(sm) ensures ParkedOn(t, y.pc(t), sm) && c.status(t) == Blocked {
    }
    if t in y.threads && t != c.idle && c.status(t) == Blocked {
      assert Placed(c, y, t);
    }
  }

  /** At every step boundary the ready list is in order of current priority, whatever
      was donated, and the running thread's time slice is not used up. */
  lemma ReadyInOrder(s: State)
    requires Reachable(s)
    ensures Descending(s.sync.prio, s.cpu.ready) && NoDup(s.cpu.ready) && s.cpu.slice < TIME_SLICE
  {
    ReachableInv(s);
  }

  /** timer_sleep puts the caller to sleep with the deadline it computed. */
  lemma SleepsUntil(s: State, d: int, path: seq<Tid>, order: seq<Tid>)
    requires Reachable(s) && s.sync.pc(s.cpu.running) == Sleep(d)
    ensures var s', t := Step(s, Run(path, order)), s.cpu.running;
            && s'.cpu.sleeping == s.cpu.sleeping + [t] && s'.cpu.wake(t) == d && s'.cpu.status(t) == Blocked
            && s'.cpu.running != t && s'.cpu.ticks == s.cpu.ticks
  {
    hide Inv, Reachable;
    ReachableInv(s);
    SleepingIsActive(s, d);
    FallsAsleep(s.cpu, s.sync.prio, d);
  }

  lemma SleepingIsActive(s: State, d: int)
    requires Inv(s) && s.sync.pc(s.cpu.running) == Sleep(d)
    ensures s.cpu.running != s.cpu.idle && s.cpu.running !in s.cpu.ready
  {
    RunningIsActive(s.cpu, s.sync);
  }

  lemma FallsAsleep(c: Cpu, prio: Total<Tid, int>, d: int)
    requires c.running != c.idle && c.running !in c.ready
    ensures var c' := Act(c, prio, SleepIt(d));
            && c'.sleeping == c.sleeping + [c.running] && c'.wake(c.running) == d && c'.status(c.running) == Blocked
            && c'.running != c.running && c'.ticks == c.ticks
  {
    hide Sort;
    var c1 := c.(sleeping := c.sleeping + [c.running], wake := Put(c.wake, c.running, d),
                 status := Put(c.status, c.running, Blocked));
    ScheduleIs(c1, prio);
  }

  /** thread_create makes the new thread ready. If it is above its creator there is a
      dispatch, and it is the new thread that runs exactly if no other ready thread is
      at least as urgent; otherwise the creator goes on. */
  lemma CreatePreempts(s: State, t: Tid, p: int)
    requires Reachable(s) && Enabled(s, Create(t, p))
    ensures var s' := Step(s, Create(t, p));
            && s'.sync.prio(t) == s'.sync.init(t) == p
            && (t in s'.cpu.ready || t == s'.cpu.running)
            && if p > s.sync.prio(s.cpu.running) then
                 && Topmost(s'.cpu, s'.sync.prio)
                 && (s'.cpu.running == t <==> forall u :: u in s.cpu.ready ==> s.sync.prio(u) < p)
               else s'.cpu.running == s.cpu.running && t in s'.cpu.ready
  {
    ReachableInv(s);
    CreateStarts(s.cpu, s.sync, t, p);
  }

  /** A new thread starts outside the primitives with the priority it is given, without waits or donors,
      and thread_create changes no other thread's point in the code or priority. */
  lemma CreateInitializes(s: State, t: Tid, p: int)
    requires Enabled(s, Create(t, p))
    ensures var y, y' := s.sync, Step(s, Create(t, p)).sync;
            && y'.threads == y.threads + {t} && t !in y.threads
            && y'.pc(t) == User && y'.prio(t) == y'.init(t) == p && y'.waiting(t) == None && y'.donations(t) == []
            && (forall u :: u != t ==> y'.pc(u) == y.pc(u) && y'.prio(u) == y.prio(u) && y'.init(u) == y.init(u))
            && y'.value == y.value && y'.waiters == y.waiters && y'.holder == y.holder && y'.queue == y.queue
  {
    hide StartThread;
  }

  lemma CreateStarts(c: Cpu, y: Sync, t: Tid, p: int)
    requires Scheduled(c, y) && t !in y.threads && c.running in y.threads && c.running != c.idle
    requires forall u :: u in c.ready ==> u in y.threads
    ensures var prio := AddThread(y, t, p).prio;
            var c' := StartThread(c, prio, t);
            && (t in c'.ready || t == c'.running)
            && if p > y.prio(c.running) then
                 && Topmost(c', prio)
                 && (c'.running == t <==> forall u :: u in c.ready ==> y.prio(u) < p)
               else c'.running == c.running && t in c'.ready
  {
    hide Insert, Sort, Scheduled;
    var prio := AddThread(y, t, p).prio;
    InsertMembers(prio, c.ready, t);
    if p > y.prio(c.running) {
      CreateDispatches(c, y, prio, t);
    }
  }

  lemma CreateDispatches(c: Cpu, y: Sync, prio: Total<Tid, int>, t: Tid)
    requires Scheduled(c, y) && c.running != c.idle && t !in c.ready && t != c.running
    requires (forall u :: u in c.ready || u == c.running ==> prio(u) == y.prio(u)) && prio(t) > y.prio(c.running)
    ensures var c' := YieldCpu(Unblock(c, prio, t), prio);
            && Topmost(c', prio) && (t in c'.ready || t == c'.running)
            && (c'.running == t <==> forall u :: u in c.ready ==> y.prio(u) < prio(t))
  {
    hide Insert, Sort, Scheduled, YieldCpu, Topmost;
    ReadyIsSorted(c, y);
    SameOrder(y.prio, prio, c.ready);
    YieldIs(Unblock(c, prio, t), prio);
    InsertMembers(prio, c.ready, t);
    InsertMembers(prio, Unblock(c, prio, t).ready, c.running);
    NewcomerFirstIff(prio, c.ready, t, c.running);
  }

  lemma ReadyIsSorted(c: Cpu, y: Sync)
    requires Scheduled(c, y)
    ensures Descending(y.prio, c.ready) && NoDup(c.ready) && c.running !in c.ready
  {
  }

  lemma YieldIs(c: Cpu, prio: Total<Tid, int>)
    requires c.running != c.idle
    ensures var c', zs := YieldCpu(c, prio), Insert(prio, c.ready, c.running);
            && Topmost(c', prio) && c'.running == Sort(prio, zs)[0]
            && forall u :: u in zs ==> u in c'.ready || u == c'.running
  {
    hide Insert, Sort;
    ScheduleTopmost(Requeue(c, prio), prio);
    ScheduleIs(Requeue(c, prio), prio);
    var zs := Insert(prio, c.ready, c.running);
    SortMembers(prio, zs);
    var q := Sort(prio, zs);
    assert q == [q[0]] + q[1..];
  }

  // ---------- locks ----------

  /** Exactly one of: the lock is free, or it has one owner; and a non-null holder is that owner. */
  lemma MutualExclusion(s: State, l: LockId)
    requires Reachable(s)
    ensures s.sync.value(OfLock(l)) + |OwnersOf(s.sync, l)| == 1
    ensures s.sync.holder(l).Some? ==>
              s.sync.value(OfLock(l)) == 0 && OwnersOf(s.sync, l) == {s.sync.holder(l).value}
    ensures forall t, u :: t in OwnersOf(s.sync, l) && u in OwnersOf(s.sync, l) ==> t == u
  {
    ReachableInv(s);
    var y := s.sync;
    assert |OwnersOf(y, l)| + y.value(OfLock(l)) == 1;
    forall t, u | t in OwnersOf(y, l) && u in OwnersOf(y, l) ensures t == u {
      OneOwner(y, l, t, u);
    }
    if y.holder(l).Some? {
      OwnedIsZero(y, l, y.holder(l).value);
    }
  }

  /** Donation lists are disjoint and without repetition; donors are blocked on a held lock;
      and a thread that has got its lock is on no donation list. */
  lemma DonationLists(s: State, t: Tid)
    requires Reachable(s)
    ensures forall h :: t in s.sync.donations(h) <==>
              s.sync.waiting(t).Some? && s.sync.holder(s.sync.waiting(t).value) == Some(h)
    ensures forall g, h :: t in s.sync.donations(g) && t in s.sync.donations(h) ==> g == h
    ensures NoDup(s.sync.donations(t)) && t !in s.sync.donations(t)
    ensures s.sync.waiting(t).Some? ==> s.cpu.status(t) == Blocked && t in s.sync.waiters(OfLock(s.sync.waiting(t).value))
    ensures s.sync.pc(t).Own? || t == s.cpu.running ==>
              s.sync.waiting(t) == None && forall h :: t !in s.sync.donations(h)
  {
    hide Inv, Reachable, Graph, Held, NoDup, Active;
    ReachableInv(s);
    LockInv(s);
    var y := s.sync;
    forall h ensures DonorIff(y, h, t) {
      GraphAt(y, h, t);
    }
    forall h ensures t in y.donations(h) <==> y.waiting(t).Some? && y.holder(y.waiting(t).value) == Some(h) {
      assert DonorIff(y, h, t);
    }
    GraphAt(y, t, t);
    HeldAt(y, t);
    if y.waiting(t).Some? {
      WaiterIsBlocked(s, OfLock(y.waiting(t).value), t);
    }
  }

  lemma LockInv(s: State)
    requires Inv(s)
    ensures Graph(s.sync) && Held(s.sync) && s.sync.waiting(s.cpu.running) == None
  {
    RunningIsActive(s.cpu, s.sync);
    ActiveWaitsForNothing(s.sync, s.cpu.running);
  }

  /** thread_set_priority: the caller's own priority is the new one, its effective
      priority the highest of that and its donors', it has the donors it had, and no
      other thread's priority changes; then nobody ready is above the running thread. */
  lemma SetPriorityIs(s: State, p: int, path: seq<Tid>, order: seq<Tid>)
    requires Reachable(s) && s.sync.pc(s.cpu.running) == SetPriority(p)
    ensures var s', r := Step(s, Run(path, order)), s.cpu.running;
            && s'.sync.init(r) == p && HighestAt(s'.sync, r)
            && multiset(s'.sync.donations(r)) == multiset(s.sync.donations(r))
            && (forall t :: t != r ==> s'.sync.prio(t) == s.sync.prio(t) && s'.sync.init(t) == s.sync.init(t))
            && Topmost(s'.cpu, s'.sync.prio)
  {
    hide Inv, Reachable, Act, Assign, HighestAt;
    ReachableInv(s);
    DonationLists(s, s.cpu.running);
    RunKeeps(s, path, order);
    AssignIs(s.sync, s.cpu.running, p);
  }

  lemma AssignIs(y: Sync, r: Tid, p: int)
    requires r !in y.donations(r)
    ensures var y' := Assign(y, r, p);
            && y'.init(r) == p && HighestAt(y', r) && multiset(y'.donations(r)) == multiset(y.donations(r))
            && forall t :: t != r ==> y'.prio(t) == y.prio(t) && y'.init(t) == y.init(t)
  {
    hide Reset, HighestAt;
    var y1 := y.(pc := Put(y.pc, r, User), prio := Put(y.prio, r, p), init := Put(y.init, r, p));
    ResetIsHighest(y1, r);
    ResetFrame(y1, r);
  }

  lemma ResetFrame(y: Sync, r: Tid)
    ensures var y' := Reset(y, r); y'.init == y.init && multiset(y'.donations(r)) == multiset(y.donations(r))
  {
  }

  // ---------- semaphores ----------

  /** A semaphore someone waits for and that is up has a woken thread that will test it;
      each woken thread is ready or running, not blocked. */
  lemma WakeupsArrive(s: State, sm: Sema)
    requires Reachable(s)
    ensures s.sync.waiters(sm) != [] ==> s.sync.value(sm) <= |Woken(s.sync.threads, s.sync.pc, s.sync.waiters(sm), sm)|
    ensures forall t :: t in Woken(s.sync.threads, s.sync.pc, s.sync.waiters(sm), sm) && t != s.cpu.idle ==>
              s.cpu.status(t) != Blocked
  {
    hide Inv, Reachable, Placed;
    ReachableInv(s);
    if s.sync.waiters(sm) != [] {
      WakeInv(s, sm);
    }
    var c, y := s.cpu, s.sync;
    forall t | t in Woken(y.threads, y.pc, y.waiters(sm), sm) && t != c.idle ensures c.status(t) != Blocked {
      if c.status(t) == Blocked {
        BlockedIsPlaced(s, t);
        WokenIsNotPlaced(c, y, t, sm);
      }
    }
  }

  lemma WakeInv(s: State, sm: Sema)
    requires Inv(s) && s.sync.waiters(sm) != []
    ensures s.sync.value(sm) <= |Woken(s.sync.threads, s.sync.pc, s.sync.waiters(sm), sm)|
  {
  }

  lemma BlockedIsPlaced(s: State, t: Tid)
    requires Inv(s) && t in s.sync.threads && s.cpu.status(t) == Blocked
    ensures Placed(s.cpu, s.sync, t)
  {
  }

  lemma WokenIsNotPlaced(c: Cpu, y: Sync, t: Tid, sm: Sema)
    requires t in Woken(y.threads, y.pc, y.waiters(sm), sm) && t != c.idle
    ensures !Placed(c, y, t)
  {
  }

  /** u is one of the most urgent threads of ts, and first among them in list order. */
  ghost predicate FirstTopmost(prio: Total<Tid, int>, ts: seq<Tid>, u: Tid) {
    && u in ts && (forall t :: t in ts ==> prio(t) <= prio(u))
    && Level(prio, ts, prio(u)) != [] && Level(prio, ts, prio(u))[0] == u
  }

  /** From s to s' thread u alone has left the queue of sm and is no longer blocked. */
  ghost predicate Woke(s: State, s': State, sm: Sema, u: Tid) {
    && multiset(s.sync.waiters(sm)) == multiset{u} + multiset(s'.sync.waiters(sm))
    && s.cpu.status(u) == Blocked && s'.cpu.status(u) != Blocked
  }

  /** sema_up wakes a waiter of the highest current priority, the first in the queue of
      those; and then nobody ready is more urgent than the running thread. */
  lemma UpWakesTopmost(s: State, path: seq<Tid>, order: seq<Tid>, sm: Sema)
    requires Reachable(s) && UpOn(s.sync.pc(s.cpu.running)) == Some(sm)
    ensures var s' := Step(s, Run(path, order));
            && Topmost(s'.cpu, s'.sync.prio)
            && s'.sync.value(sm) == s.sync.value(sm) + 1
            && if s.sync.waiters(sm) == [] then s'.sync.waiters(sm) == []
               else exists u :: FirstTopmost(s.sync.prio, s.sync.waiters(sm), u) && Woke(s, s', sm, u)
  {
    hide Inv, Reachable, Topmost, Act, Exec, FirstTopmost, Woke;
    ReachableInv(s);
    var c, y, r := s.cpu, s.sync, s.cpu.running;
    ExecIsUp(y, r, path, order, sm);
    UpCanRun(y, r, path, order);
    RunKeeps(s, path, order);
    if y.waiters(sm) != [] {
      var u := UpWakes(s, path, order, sm);
      assert FirstTopmost(y.prio, y.waiters(sm), u);
    }
  }

  lemma UpCanRun(y: Sync, r: Tid, path: seq<Tid>, order: seq<Tid>)
    requires UpOn(y.pc(r)).Some?
    ensures CanRun(y, r, path, order)
  {
  }

  lemma UpWakes(s: State, path: seq<Tid>, order: seq<Tid>, sm: Sema) returns (u: Tid)
    requires Inv(s) && UpOn(s.sync.pc(s.cpu.running)) == Some(sm) && s.sync.waiters(sm) != []
    ensures FirstTopmost(s.sync.prio, s.sync.waiters(sm), u)
    ensures Woke(s, Step(s, Run(path, order)), sm, u)
  {
    hide Inv, Exec, Up, FirstTopmost, Insert, Sort;
    var c, y, r := s.cpu, s.sync, s.cpu.running;
    ExecIsUp(y, r, path, order, sm);
    u := UpTakes(y, r, sm);
    WaiterIsBlocked(s, sm, u);
    StealNotBlocked(Unblock(c, y.prio, u), y.prio, u);
  }

  lemma ExecIsUp(y: Sync, r: Tid, path: seq<Tid>, order: seq<Tid>, sm: Sema)
    requires UpOn(y.pc(r)) == Some(sm)
    ensures Exec(y, r, path, order) == Up(y, r, sm)
  {
  }

  lemma UpTakes(y: Sync, r: Tid, sm: Sema) returns (u: Tid)
    requires y.waiters(sm) != []
    ensures FirstTopmost(y.prio, y.waiters(sm), u)
    ensures multiset(y.waiters(sm)) == multiset{u} + multiset(Up(y, r, sm).0.waiters(sm))
    ensures Up(y, r, sm).1 == WakeUp(Some(u)) && Up(y, r, sm).0.prio == y.prio
  {
    u := Sort(y.prio, y.waiters(sm))[0];
    HeadAndTail(y.prio, y.waiters(sm));
    SortHead(y.prio, y.waiters(sm));
  }

  lemma WaiterIsBlocked(s: State, sm: Sema, u: Tid)
    requires Inv(s) && u in s.sync.waiters(sm)
    ensures s.cpu.status(u) == Blocked
  {
  }

  /** A preemption check blocks nobody. */
  lemma StealNotBlocked(c: Cpu, prio: Total<Tid, int>, u: Tid)
    requires c.status(u) != Blocked
    ensures Steal(c, prio).status(u) != Blocked
  {
    var c1 := Requeue(c, prio);
    assert c1.status(u) != Blocked;
  }

  // ---------- condition variables ----------

  /** A thread in cond_wait that is neither queued nor about to be signalled has
      been signalled, and its next test of its semaphore succeeds: it does not block again. */
  lemma SignalNotLost(s: State, c: Cond, path: seq<Tid>, order: seq<Tid>)
    requires Reachable(s) && s.sync.pc(s.cpu.running).WaitDown? && s.sync.pc(s.cpu.running).cond == c
    requires s.cpu.running !in s.sync.queue(c) && !InFlight(s.sync, c, s.cpu.running)
    ensures Exec(s.sync, s.cpu.running, path, order).1 == Stay
    ensures Exec(s.sync, s.cpu.running, path, order).0.pc(s.cpu.running) == Acquire(c.lock)
  {
    ReachableInv(s);
    assert WaiterOk(s.sync, c, s.cpu.running);
  }

  /** A thread woken in cond_wait's sema_down has been signalled: it is off the
      condition's queue, its signal has arrived, and nobody is still to signal it. */
  lemma WokenIsSignalled(s: State, t: Tid, c: Cond)
    requires Reachable(s) && s.sync.pc(t) == WaitDown(c, true) && t !in s.sync.waiters(OfWaiter(t))
    ensures s.sync.value(OfWaiter(t)) == 1 && s.sync.waiters(OfWaiter(t)) == []
    ensures t !in s.sync.queue(c) && !InFlight(s.sync, c, t)
  {
    ReachableInv(s);
    var y := s.sync;
    assert WokenInWait(y, t);
    assert WaiterOk(y, c, t) && InWait(y.pc(t), c);
    assert t in y.queue(c) ==> Unsignalled(y, c, t);
    assert InFlight(y, c, t) ==> Unsignalled(y, c, t);
  }

  /** cond_signal takes one waiter from the queue; if all waiters have reached their
      semaphores it is one of the highest current priority. */
  lemma SignalTakesTopmost(s: State, c: Cond, more: bool, path: seq<Tid>, order: seq<Tid>)
    requires Reachable(s) && s.sync.pc(s.cpu.running) == Signal(c, more) && s.sync.queue(c) != []
    requires Enabled(s, Run(path, order))
    ensures var y' := Step(s, Run(path, order)).sync;
            && y'.pc(s.cpu.running).SignalUp? && y'.pc(s.cpu.running).cond == c
            && var t := y'.pc(s.cpu.running).chosen;
            && t in s.sync.queue(c)
            && multiset(s.sync.queue(c)) == multiset{t} + multiset(y'.queue(c))
            && (Queued(s.sync, s.sync.queue(c)) ==> forall u :: u in s.sync.queue(c) ==> s.sync.prio(u) <= s.sync.prio(t))
  {
    hide Inv, Reachable;
    SameMembers(order, s.sync.queue(c));
    var t := order[0];
    assert t in order;
    assert order == [t] + order[1..];
    if Queued(s.sync, s.sync.queue(c)) {
      SortHead(s.sync.prio, s.sync.queue(c));
    }
  }
}
