/** The donation graph: the donations lists are exactly the waiting_lock-to-holder edges. */
module Donation {
  import opened Lists
  import opened Machine
  import opened Parking
  import opened Ownership

  /** t is in h's donations exactly when t waits for a lock h holds; and then t
      is blocked inside the sema_down of lock_acquire for that lock. */
  ghost predicate Graph(y: Sync) {
    && (forall h, t :: t in y.donations(h) <==> y.waiting(t).Some? && y.holder(y.waiting(t).value) == Some(h))
    && (forall h :: NoDup(y.donations(h)))
    && (forall t :: y.waiting(t).Some? ==>
          var l := y.waiting(t).value;
          y.holder(l).Some? && y.pc(t) == LockDown(l, true) && t in y.waiters(OfLock(l)))
  }

  /** In the sema_down of lock_acquire for l. */
  predicate AwaitsLock(pc: Pc, l: LockId) {
    pc.LockDown? && pc.lock == l
  }

  lemma ActiveWaitsForNothing(y: Sync, r: Tid)
    requires Graph(y) && Active(y, r)
    ensures y.waiting(r) == None
  {
  }

  // ---------- the graph, one step ----------

  /** r moves on; waiting, donations and holders stay, and no donor leaves its queue. */
  lemma GraphMove(y: Sync, y': Sync, r: Tid, q: Pc)
    requires Graph(y) && y.waiting(r) == None
    requires y'.pc == Put(y.pc, r, q)
    requires y'.waiting == y.waiting && y'.donations == y.donations && y'.holder == y.holder
    requires forall t ::
      y.waiting(t).Some? && t in y.waiters(OfLock(y.waiting(t).value)) ==> t in y'.waiters(OfLock(y.waiting(t).value))
    ensures Graph(y')
  {
  }

  lemma ParkAtKeepsGraph(y: Sync, r: Tid, sm: Sema)
    requires Graph(y) && y.waiting(r) == None
    ensures Graph(ParkAt(y, r, sm))
  {
    InsertMembers(y.prio, y.waiters(sm), r);
    GraphMove(y, ParkAt(y, r, sm), r, Park(y.pc(r)));
  }

  /** The thread sema_up wakes is no donor: its lock has just been given up. */
  lemma UpKeepsGraph(y: Sync, r: Tid, sm: Sema)
    requires Graph(y) && Parked(y) && Active(y, r) && Exclusive(y) && Held(y)
    requires UpOn(y.pc(r)) == Some(sm)
    ensures Graph(Up(y, r, sm).0)
  {
    var y' := Up(y, r, sm).0;
    if y.waiters(sm) != [] {
      Popped(y, sm);
      var u := Sort(y.prio, y.waiters(sm))[0];
      assert ParkedOn(u, y.pc(u), sm);
      if sm.OfLock? {
        NoHolder(y, r, sm.lock);
      }
      assert y.waiting(u) == None;
      forall t | y.waiting(t).Some? && t in y.waiters(OfLock(y.waiting(t).value))
        ensures t in y'.waiters(OfLock(y.waiting(t).value))
      {
        assert t != u;
      }
    }
    GraphMove(y, y', r, AfterUp(y.pc(r)));
  }

  /** The first clause of Graph for one pair. */
  ghost predicate DonorIff(y: Sync, h: Tid, t: Tid) {
    t in y.donations(h) <==> y.waiting(t).Some? && y.holder(y.waiting(t).value) == Some(h)
  }

  /** The last clause of Graph for one thread. */
  ghost predicate DonorParked(y: Sync, t: Tid) {
    y.waiting(t).Some? ==>
      var l := y.waiting(t).value;
      y.holder(l).Some? && y.pc(t) == LockDown(l, true) && t in y.waiters(OfLock(l))
  }

  lemma GraphAt(y: Sync, h: Tid, t: Tid)
    requires Graph(y)
    ensures DonorIff(y, h, t) && NoDup(y.donations(h)) && DonorParked(y, t)
  {
  }

  lemma GraphFrom(y: Sync)
    requires forall h, t :: DonorIff(y, h, t)
    requires forall h :: NoDup(y.donations(h))
    requires forall t :: DonorParked(y, t)
    ensures Graph(y)
  {
    forall h, t ensures t in y.donations(h) <==> y.waiting(t).Some? && y.holder(y.waiting(t).value) == Some(h) {
      assert DonorIff(y, h, t);
    }
    forall t | y.waiting(t).Some?
      ensures var l := y.waiting(t).value;
              y.holder(l).Some? && y.pc(t) == LockDown(l, true) && t in y.waiters(OfLock(l))
    {
      assert DonorParked(y, t);
    }
  }

  /** Joining the holder's donations and parking on the lock is one consistent change. */
  lemma DonateKeepsGraph(y: Sync, r: Tid, l: LockId, h: Tid, path: seq<Tid>)
    requires Graph(y) && y.waiting(r) == None && y.holder(l) == Some(h)
    requires y.pc(r) == LockDown(l, false)
    ensures Graph(ParkAt(Donate(y, r, l, h, path), r, OfLock(l)))
  {
    hide Graph, Insert, NoDup, Raise;
    var y1 := Donate(y, r, l, h, path);
    var y2 := ParkAt(y1, r, OfLock(l));
    InsertMembers(y.prio, y.donations(h), r);
    InsertMembers(y1.prio, y.waiters(OfLock(l)), r);
    forall g, t ensures DonorIff(y2, g, t) {
      GraphAt(y, g, t);
    }
    forall g ensures NoDup(y2.donations(g)) {
      GraphAt(y, g, r);
      if g == h {
        NoDupInsert(y.prio, y.donations(h), r);
      }
    }
    forall t ensures DonorParked(y2, t) {
      GraphAt(y, h, t);
    }
    GraphFrom(y2);
  }

  lemma SetHolderKeepsGraph(y: Sync, r: Tid, l: LockId, tried: bool)
    requires Graph(y) && y.waiting(r) == None && y.holder(l) == None
    ensures Graph(SetHolder(y, r, l, tried))
  {
    var y' := SetHolder(y, r, l, tried);
    forall h, t ensures t in y'.donations(h) <==> y'.waiting(t).Some? && y'.holder(y'.waiting(t).value) == Some(h) {
      assert y'.waiting(t) == y.waiting(t);
      assert t in y.donations(h) <==> y.waiting(t).Some? && y.holder(y.waiting(t).value) == Some(h);
    }
  }

  /** remove_lock frees every thread that waits for l, as all of them are donors of r. */
  lemma RemoveLockFrees(y: Sync, r: Tid, l: LockId, t: Tid)
    requires Graph(y) && y.holder(l) == Some(r)
    ensures RemoveLock(y, r, l).waiting(t) == if y.waiting(t) == Some(l) then None else y.waiting(t)
    ensures t in RemoveLock(y, r, l).donations(r) <==> t in y.donations(r) && y.waiting(t) != Some(l)
  {
    assert t in y.donations(r) <==> y.waiting(t).Some? && y.holder(y.waiting(t).value) == Some(r);
    FilterMembers(Kept(y, r, l), y.donations(r));
  }

  /** lock_release frees every thread that waits for the lock, and no other. */
  lemma UnholdFrees(y: Sync, r: Tid, l: LockId, next: Then, t: Tid)
    requires Graph(y) && y.holder(l) == Some(r)
    ensures Unhold(y, r, l, next).waiting(t) == if y.waiting(t) == Some(l) then None else y.waiting(t)
    ensures Unhold(y, r, l, next).holder == Put(y.holder, l, None)
  {
    hide Graph, Filter, Sort;
    var y1 := y.(holder := Put(y.holder, l, None), pc := Put(y.pc, r, ReleaseUp(l, next)));
    assert Freed(y1, r, l) == Freed(y, r, l);
    RemoveLockFrees(y, r, l, t);
  }

  lemma RemoveLockKeepsGraph(y: Sync, r: Tid, l: LockId, q: Pc)
    requires Graph(y) && y.waiting(r) == None && y.holder(l) == Some(r)
    ensures Graph(RemoveLock(y, r, l).(holder := Put(y.holder, l, None), pc := Put(y.pc, r, q)))
  {
    hide Graph, NoDup, Filter, Freed, Kept;
    var y' := RemoveLock(y, r, l).(holder := Put(y.holder, l, None), pc := Put(y.pc, r, q));
    forall h, t ensures DonorIff(y', h, t) {
      RemoveLockFrees(y, r, l, t);
      GraphAt(y, h, t);
    }
    forall h ensures NoDup(y'.donations(h)) {
      GraphAt(y, h, h);
      if h == r {
        NoDupFilter(Kept(y, r, l), y.donations(r));
      }
    }
    forall t ensures DonorParked(y', t) {
      RemoveLockFrees(y, r, l, t);
      GraphAt(y, r, t);
    }
    GraphFrom(y');
  }

  lemma ResetKeepsGraph(y: Sync, r: Tid)
    requires Graph(y)
    ensures Graph(Reset(y, r))
  {
    hide Graph, Sort, NoDup;
    var prio := Put(y.prio, r, y.init(r));
    var y' := Reset(y, r);
    SortMembers(prio, y.donations(r));
    forall h, t ensures DonorIff(y', h, t) {
      GraphAt(y, h, t);
    }
    forall h ensures NoDup(y'.donations(h)) {
      GraphAt(y, h, h);
      if h == r {
        NoDupSort(prio, y.donations(r));
      }
    }
    forall t ensures DonorParked(y', t) {
      GraphAt(y, r, t);
    }
    GraphFrom(y');
  }

  lemma UnholdKeepsGraph(y: Sync, r: Tid, l: LockId, next: Then)
    requires Graph(y) && y.waiting(r) == None && y.holder(l) == Some(r)
    ensures Graph(Unhold(y, r, l, next))
  {
    RemoveLockKeepsGraph(y, r, l, ReleaseUp(l, next));
    var y1 := y.(holder := Put(y.holder, l, None), pc := Put(y.pc, r, ReleaseUp(l, next)));
    assert Freed(y1, r, l) == Freed(y, r, l) && Kept(y1, r, l) == Kept(y, r, l);
    ResetKeepsGraph(RemoveLock(y1, r, l), r);
  }

  lemma AssignKeepsGraph(y: Sync, r: Tid, p: int)
    requires Graph(y) && y.waiting(r) == None
    ensures Graph(Assign(y, r, p))
  {
    var y1 := y.(pc := Put(y.pc, r, User), prio := Put(y.prio, r, p), init := Put(y.init, r, p));
    GraphMove(y, y1, r, User);
    ResetKeepsGraph(y1, r);
  }

  lemma DownKeepsGraph(y: Sync, r: Tid, sm: Sema)
    requires Graph(y) && y.waiting(r) == None
    ensures Graph(Down(y, r, sm).0)
  {
    if y.value(sm) == 0 {
      ParkAtKeepsGraph(y, r, sm);
    } else {
      GraphMove(y, Down(y, r, sm).0, r, AfterDown(y.pc(r)));
    }
  }

  lemma StartAcquireKeepsGraph(y: Sync, r: Tid, l: LockId, path: seq<Tid>)
    requires Graph(y) && y.waiting(r) == None && Exclusive(y) && Held(y)
    ensures Graph(StartAcquire(y, r, l, path).0)
  {
    var y1 := Move(y, r, LockDown(l, false));
    GraphMove(y, y1, r, LockDown(l, false));
    if y.holder(l).Some? {
      OwnedIsZero(y, l, y.holder(l).value);
      DonateKeepsGraph(y1, r, l, y.holder(l).value, path);
    }
  }

  /** Whatever the running thread does next, the donation graph stays exact. */
  lemma RunKeepsGraph(y: Sync, r: Tid, path: seq<Tid>, order: seq<Tid>)
    requires Graph(y) && Parked(y) && Active(y, r) && Exclusive(y) && Held(y)
    ensures Graph(Exec(y, r, path, order).0)
  {
    hide Graph, Parked, Active, Exclusive, Held, Down, Up, StartAcquire, SetHolder, Unhold, Assign;
    var y' := Exec(y, r, path, order).0;
    ActiveWaitsForNothing(y, r);
    HeldAt(y, r);
    ActiveIsThread(y, r);
    match y.pc(r) {
      case User =>
      case PlainDown(n, _) => DownKeepsGraph(y, r, Named(n));
      case LockDown(l, _) => DownKeepsGraph(y, r, OfLock(l));
      case WaitDown(_, _) => DownKeepsGraph(y, r, OfWaiter(r));
      case PlainUp(n) => UpKeepsGraph(y, r, Named(n));
      case ReleaseUp(l, _) => UpKeepsGraph(y, r, OfLock(l));
      case SignalUp(_, t, _) => UpKeepsGraph(y, r, OfWaiter(t));
      case PlainTry(n) => GraphMove(y, y', r, User);
      case TryAcquire(l) => GraphMove(y, y', r, y'.pc(r));
      case Acquire(l) => StartAcquireKeepsGraph(y, r, l, path);
      case Own(l, tried) =>
        NoHolder(y, r, l);
        SetHolderKeepsGraph(y, r, l, tried);
      case Release(l, next) => UnholdKeepsGraph(y, r, l, next);
      case CondWait(c) =>
        OwnSemaphoreEmpty(y, r);
        GraphMove(y, y', r, Release(c.lock, WaitOn(c)));
      case Signal(c, more) => GraphMove(y, y', r, y'.pc(r));
      case Broadcast(c) => GraphMove(y, y', r, y'.pc(r));
      case SetPriority(p) => AssignKeepsGraph(y, r, p);
      case Yield => GraphMove(y, y', r, User);
      case Sleep(d) => GraphMove(y, y', r, Asleep);
      case Asleep => GraphMove(y, y', r, User);
      case IdleLoop =>
    }
  }

  lemma AddKeepsGraph(y: Sync, t: Tid, p: int)
    requires Graph(y) && Parked(y) && Held(y) && t !in y.threads
    ensures Graph(AddThread(y, t, p))
  {
    var y' := AddThread(y, t, p);
    assert y.pc(t) == User;
    assert y.waiting(t) == None;
    forall h, u ensures u in y'.donations(h) <==> y'.waiting(u).Some? && y'.holder(y'.waiting(u).value) == Some(h) {
      assert u in y.donations(h) <==> y.waiting(u).Some? && y.holder(y.waiting(u).value) == Some(h);
    }
  }
}
