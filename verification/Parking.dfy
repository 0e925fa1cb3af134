/** Who is parked where, and that no wake-up is lost. */
module Parking {
  import opened Lists
  import opened Machine

  /** A semaphore's waiters are parked on that semaphore, each once. */
  ghost predicate Parked(y: Sync) {
    && (forall sm :: NoDup(y.waiters(sm)))
    && (forall sm, t :: t in y.waiters(sm) ==> t in y.threads && ParkedOn(t, y.pc(t), sm))
    && (forall t :: y.pc(t) != User ==> t in y.threads)
  }

  /** The threads woken from semaphore sm, with waiters ws, that have not tested its value since. */
  ghost function Woken(threads: set<Tid>, pc: Total<Tid, Pc>, ws: seq<Tid>, sm: Sema): set<Tid> {
    set t | t in threads && ParkedOn(t, pc(t), sm) && t !in ws
  }

  /** While threads wait, the value is covered by woken threads that will test it. */
  ghost predicate NoLostWakeup(y: Sync) {
    forall sm :: y.waiters(sm) != [] ==> y.value(sm) <= |Woken(y.threads, y.pc, y.waiters(sm), sm)|
  }

  /** r is not in any semaphore's queue. */
  ghost predicate Active(y: Sync, r: Tid) {
    r in y.threads && forall sm :: r !in y.waiters(sm)
  }

  lemma ActiveIsThread(y: Sync, r: Tid)
    requires Active(y, r)
    ensures r in y.threads
  {
  }

  // ---------- one step ----------

  /** r moves on and no queue changes. */
  lemma ParkedMove(y: Sync, y': Sync, r: Tid, q: Pc)
    requires Parked(y) && Active(y, r)
    requires y'.pc == Put(y.pc, r, q) && y'.waiters == y.waiters && y'.threads == y.threads
    ensures Parked(y')
  {
  }

  lemma WakeMove(y: Sync, y': Sync, r: Tid, q: Pc)
    requires NoLostWakeup(y) && !(y.pc(r).PlainDown? || y.pc(r).LockDown? || y.pc(r).WaitDown?)
    requires q.PlainDown? || q.LockDown? || q.WaitDown? ==> !q.parked
    requires y'.pc == Put(y.pc, r, q) && y'.waiters == y.waiters && y'.threads == y.threads
    requires forall sm :: y'.value(sm) <= y.value(sm)
    ensures NoLostWakeup(y')
  {
    forall sm | y'.waiters(sm) != []
      ensures y'.value(sm) <= |Woken(y'.threads, y'.pc, y'.waiters(sm), sm)|
    {
      assert Woken(y'.threads, y'.pc, y'.waiters(sm), sm) == Woken(y.threads, y.pc, y.waiters(sm), sm);
    }
  }

  lemma ParkAtKeepsParked(y: Sync, r: Tid, sm: Sema)
    requires Parked(y) && Active(y, r) && DownOn(r, y.pc(r)) == Some(sm)
    ensures Parked(ParkAt(y, r, sm))
  {
    hide Insert;
    InsertMembers(y.prio, y.waiters(sm), r);
    NoDupInsert(y.prio, y.waiters(sm), r);
  }

  lemma ParkAtKeeps(y: Sync, r: Tid, sm: Sema)
    requires Parked(y) && NoLostWakeup(y) && Active(y, r)
    requires DownOn(r, y.pc(r)) == Some(sm) && y.value(sm) == 0
    ensures Parked(ParkAt(y, r, sm)) && NoLostWakeup(ParkAt(y, r, sm))
  {
    hide Insert, Parked, Active;
    ParkAtKeepsParked(y, r, sm);
    var y' := ParkAt(y, r, sm);
    InsertMembers(y.prio, y.waiters(sm), r);
    forall s | y'.waiters(s) != []
      ensures y'.value(s) <= |Woken(y'.threads, y'.pc, y'.waiters(s), s)|
    {
      if s != sm {
        assert Woken(y'.threads, y'.pc, y'.waiters(s), s) == Woken(y.threads, y.pc, y.waiters(s), s);
      }
    }
  }

  lemma TakeKeeps(y: Sync, r: Tid, sm: Sema)
    requires Parked(y) && NoLostWakeup(y) && Active(y, r)
    requires DownOn(r, y.pc(r)) == Some(sm) && y.value(sm) > 0
    ensures var y' := Take(y, r, sm, AfterDown(y.pc(r))); Parked(y') && NoLostWakeup(y')
  {
    var y' := Take(y, r, sm, AfterDown(y.pc(r)));
    ParkedMove(y, y', r, AfterDown(y.pc(r)));
    forall s | y'.waiters(s) != []
      ensures y'.value(s) <= |Woken(y'.threads, y'.pc, y'.waiters(s), s)|
    {
      WokenWithout(y.threads, y.pc, r, AfterDown(y.pc(r)), y.waiters(s), s);
      assert s != sm ==> r !in Woken(y.threads, y.pc, y.waiters(s), s);
    }
  }

  /** A thread that goes on past sema_down is no longer counted, and it alone. */
  lemma WokenWithout(threads: set<Tid>, pc: Total<Tid, Pc>, r: Tid, q: Pc, ws: seq<Tid>, sm: Sema)
    requires !ParkedOn(r, q, sm)
    ensures var w := Woken(threads, pc, ws, sm);
            |Woken(threads, Put(pc, r, q), ws, sm)| == |w| - if r in w then 1 else 0
  {
    assert Woken(threads, Put(pc, r, q), ws, sm) == Woken(threads, pc, ws, sm) - {r};
  }

  lemma UpKeeps(y: Sync, r: Tid, sm: Sema)
    requires Parked(y) && NoLostWakeup(y) && Active(y, r) && UpOn(y.pc(r)) == Some(sm)
    ensures Parked(Up(y, r, sm).0) && NoLostWakeup(Up(y, r, sm).0)
  {
    var y' := Up(y, r, sm).0;
    if y.waiters(sm) == [] {
      ParkedMove(y, y', r, AfterUp(y.pc(r)));
    } else {
      PopKeepsParked(y, r, sm);
    }
    forall s | y'.waiters(s) != []
      ensures y'.value(s) <= |Woken(y'.threads, y'.pc, y'.waiters(s), s)|
    {
      if s == sm {
        WokenByUp(y, r, sm);
      } else {
        assert Woken(y'.threads, y'.pc, y'.waiters(s), s) == Woken(y.threads, y.pc, y.waiters(s), s);
      }
    }
  }

  /** The thread sema_up takes from the queue, and the queue without it. */
  lemma Popped(y: Sync, sm: Sema)
    requires Parked(y) && y.waiters(sm) != []
    ensures var q := Sort(y.prio, y.waiters(sm));
            && NoDup(q[1..]) && q[0] in y.waiters(sm)
            && (forall t :: t in q[1..] <==> t in y.waiters(sm) && t != q[0])
  {
    var q := Sort(y.prio, y.waiters(sm));
    SortMembers(y.prio, y.waiters(sm));
    NoDupSort(y.prio, y.waiters(sm));
    NoDupTail(q);
    assert q[0] in q;
  }

  lemma PopKeepsParked(y: Sync, r: Tid, sm: Sema)
    requires Parked(y) && Active(y, r) && UpOn(y.pc(r)) == Some(sm) && y.waiters(sm) != []
    ensures Parked(Up(y, r, sm).0)
  {
    Popped(y, sm);
  }

  lemma WokenByUp(y: Sync, r: Tid, sm: Sema)
    requires Parked(y) && Active(y, r) && UpOn(y.pc(r)) == Some(sm) && y.waiters(sm) != []
    ensures var y' := Up(y, r, sm).0;
            |Woken(y'.threads, y'.pc, y'.waiters(sm), sm)| == |Woken(y.threads, y.pc, y.waiters(sm), sm)| + 1
  {
    var y' := Up(y, r, sm).0;
    Popped(y, sm);
    var u := Sort(y.prio, y.waiters(sm))[0];
    assert ParkedOn(u, y.pc(u), sm);
    WokenWithout(y.threads, y.pc, r, AfterUp(y.pc(r)), y.waiters(sm), sm);
    WokenWith(y.threads, y'.pc, y.waiters(sm), y'.waiters(sm), u, sm);
  }

  /** The thread that leaves the queue joins the woken ones. */
  lemma WokenWith(threads: set<Tid>, pc: Total<Tid, Pc>, ws: seq<Tid>, ws': seq<Tid>, u: Tid, sm: Sema)
    requires u in threads && ParkedOn(u, pc(u), sm) && u in ws
    requires forall t :: t in ws' <==> t in ws && t != u
    ensures |Woken(threads, pc, ws', sm)| == |Woken(threads, pc, ws, sm)| + 1
  {
    assert Woken(threads, pc, ws', sm) == Woken(threads, pc, ws, sm) + {u};
  }

  lemma SomeMember(ts: seq<Tid>)
    requires ts != []
    ensures exists t :: t in ts
  {
    var t := ts[0];
    assert t in ts;
  }

  lemma EmptyWithoutMembers(ts: seq<Tid>)
    requires forall t :: t !in ts
    ensures ts == []
  {
    if ts != [] {
      SomeMember(ts);
    }
  }

  /** cond_wait's sema_init finds the waiter's own semaphore without waiters. */
  lemma OwnSemaphoreEmpty(y: Sync, r: Tid)
    requires Parked(y) && Active(y, r)
    ensures y.waiters(OfWaiter(r)) == []
  {
    forall t ensures t !in y.waiters(OfWaiter(r)) {
      assert ParkedOn(t, y.pc(t), OfWaiter(r)) ==> t == r;
    }
    EmptyWithoutMembers(y.waiters(OfWaiter(r)));
  }

  lemma StartWaitKeeps(y: Sync, r: Tid, c: Cond, order: seq<Tid>)
    requires Parked(y) && NoLostWakeup(y) && Active(y, r) && y.pc(r) == CondWait(c)
    ensures Parked(StartWait(y, r, c, order)) && NoLostWakeup(StartWait(y, r, c, order))
  {
    OwnSemaphoreEmpty(y, r);
    var y' := StartWait(y, r, c, order);
    forall sm | y'.waiters(sm) != []
      ensures y'.value(sm) <= |Woken(y'.threads, y'.pc, y'.waiters(sm), sm)|
    {
      assert Woken(y'.threads, y'.pc, y'.waiters(sm), sm) == Woken(y.threads, y.pc, y.waiters(sm), sm);
    }
  }

  lemma StartAcquireKeeps(y: Sync, r: Tid, l: LockId, path: seq<Tid>)
    requires Parked(y) && NoLostWakeup(y) && Active(y, r) && y.pc(r) == Acquire(l)
    ensures var y' := StartAcquire(y, r, l, path).0; Parked(y') && NoLostWakeup(y')
  {
    var y1 := Move(y, r, LockDown(l, false));
    ParkedMove(y, y1, r, LockDown(l, false));
    WakeMove(y, y1, r, LockDown(l, false));
    if y.holder(l).Some? {
      var y2 := Donate(y1, r, l, y.holder(l).value, path);
      assert Parked(y2) && NoLostWakeup(y2) && Active(y2, r);
      DownKeeps(y2, r, OfLock(l));
    }
  }

  lemma DownKeeps(y: Sync, r: Tid, sm: Sema)
    requires Parked(y) && NoLostWakeup(y) && Active(y, r) && DownOn(r, y.pc(r)) == Some(sm)
    ensures Parked(Down(y, r, sm).0) && NoLostWakeup(Down(y, r, sm).0)
  {
    if y.value(sm) == 0 {
      ParkAtKeeps(y, r, sm);
    } else {
      TakeKeeps(y, r, sm);
    }
  }

  /** Moves outside sema_down, whatever they store in other fields. */
  lemma MoveKeeps(y: Sync, y': Sync, r: Tid, q: Pc)
    requires Parked(y) && NoLostWakeup(y) && Active(y, r)
    requires !(y.pc(r).PlainDown? || y.pc(r).LockDown? || y.pc(r).WaitDown?)
    requires q.PlainDown? || q.LockDown? || q.WaitDown? ==> !q.parked
    requires y'.pc == Put(y.pc, r, q) && y'.waiters == y.waiters && y'.threads == y.threads
    requires forall sm :: y'.value(sm) <= y.value(sm)
    ensures Parked(y') && NoLostWakeup(y')
  {
    ParkedMove(y, y', r, q);
    WakeMove(y, y', r, q);
  }

  /** Whatever the running thread does next, waiters stay parked and no wake-up is lost. */
  lemma RunKeepsParking(y: Sync, r: Tid, path: seq<Tid>, order: seq<Tid>)
    requires Parked(y) && NoLostWakeup(y) && Active(y, r)
    ensures var y' := Exec(y, r, path, order).0; Parked(y') && NoLostWakeup(y')
  {
    hide Parked, NoLostWakeup, Active, Down, Up, StartAcquire, StartWait;
    var y' := Exec(y, r, path, order).0;
    match y.pc(r) {
      case User =>
      case PlainDown(n, _) => DownKeeps(y, r, Named(n));
      case LockDown(l, _) => DownKeeps(y, r, OfLock(l));
      case WaitDown(_, _) => DownKeeps(y, r, OfWaiter(r));
      case PlainUp(n) => UpKeeps(y, r, Named(n));
      case ReleaseUp(l, _) => UpKeeps(y, r, OfLock(l));
      case SignalUp(_, t, _) => UpKeeps(y, r, OfWaiter(t));
      case PlainTry(n) => MoveKeeps(y, y', r, User);
      case TryAcquire(l) => MoveKeeps(y, y', r, y'.pc(r));
      case Acquire(l) => StartAcquireKeeps(y, r, l, path);
      case Own(l, tried) => MoveKeeps(y, y', r, User);
      case Release(l, next) => MoveKeeps(y, y', r, ReleaseUp(l, next));
      case CondWait(c) => StartWaitKeeps(y, r, c, order);
      case Signal(c, more) => MoveKeeps(y, y', r, y'.pc(r));
      case Broadcast(c) => MoveKeeps(y, y', r, y'.pc(r));
      case SetPriority(p) => MoveKeeps(y, y', r, User);
      case Yield => MoveKeeps(y, y', r, User);
      case Sleep(d) => MoveKeeps(y, y', r, Asleep);
      case Asleep => MoveKeeps(y, y', r, User);
      case IdleLoop =>
    }
  }

  lemma AddKeepsParking(y: Sync, t: Tid, p: int)
    requires Parked(y) && NoLostWakeup(y) && t !in y.threads
    ensures Parked(AddThread(y, t, p)) && NoLostWakeup(AddThread(y, t, p))
  {
    var y' := AddThread(y, t, p);
    forall sm | y'.waiters(sm) != []
      ensures y'.value(sm) <= |Woken(y'.threads, y'.pc, y'.waiters(sm), sm)|
    {
      assert Woken(y'.threads, y'.pc, y'.waiters(sm), sm) == Woken(y.threads, y.pc, y.waiters(sm), sm);
    }
  }
}
