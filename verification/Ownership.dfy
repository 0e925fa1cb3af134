/** Each lock has at most one owner, also when a third thread takes it before the woken one. */
module Ownership {
  import opened Lists
  import opened Machine

  /** Past the semaphore's down and before its up, with the holder field not pointing here. */
  predicate HasSemaphore(pc: Pc, l: LockId) {
    (pc.Own? && pc.lock == l) || (pc.ReleaseUp? && pc.lock == l)
  }

  /** The threads past their down of l's semaphore and before their up. */
  ghost function Owners(threads: set<Tid>, pc: Total<Tid, Pc>, holder: Option<Tid>, l: LockId): set<Tid> {
    set t | t in threads && (HasSemaphore(pc(t), l) || holder == Some(t))
  }

  ghost function OwnersOf(y: Sync, l: LockId): set<Tid> {
    Owners(y.threads, y.pc, y.holder(l), l)
  }

  /** Each lock's semaphore value and its owners add up to one. */
  ghost predicate Exclusive(y: Sync) {
    forall l :: |OwnersOf(y, l)| + y.value(OfLock(l)) == 1
  }

  /** What a thread's point in the code says about the holder fields. */
  ghost predicate HeldOk(t: Tid, pc: Pc, holder: Total<LockId, Option<Tid>>) {
    match pc
    case Acquire(l) => holder(l) != Some(t)
    case LockDown(l, _) => holder(l) != Some(t)
    case TryAcquire(l) => holder(l) != Some(t)
    case Own(l, _) => holder(l) != Some(t)
    case Release(l, next) => holder(l) == Some(t) && (next.WaitOn? ==> next.cond.lock == l)
    case ReleaseUp(l, next) => holder(l) != Some(t) && (next.WaitOn? ==> next.cond.lock == l)
    case CondWait(c) => holder(c.lock) == Some(t)
    case WaitDown(c, _) => holder(c.lock) != Some(t)
    case Signal(c, _) => holder(c.lock) == Some(t)
    case SignalUp(c, _, _) => holder(c.lock) == Some(t)
    case Broadcast(c) => holder(c.lock) == Some(t)
    case _ => true
  }

  ghost predicate Held(y: Sync) {
    && (forall t :: HeldOk(t, y.pc(t), y.holder))
    && (forall l :: y.holder(l).Some? ==> y.holder(l).value in y.threads)
  }

  lemma AtMostOne<T>(s: set<T>, a: T, b: T)
    requires a in s && b in s && |s| <= 1
    ensures a == b
  {
    assert |s - {a}| == |s| - 1;
    assert b !in s - {a};
  }

  /** The owner of a lock is unique. */
  lemma OneOwner(y: Sync, l: LockId, a: Tid, b: Tid)
    requires Exclusive(y) && a in OwnersOf(y, l) && b in OwnersOf(y, l)
    ensures a == b
  {
    AtMostOne(OwnersOf(y, l), a, b);
  }

  /** An owned lock's semaphore is zero, and OwnersOf is that owner alone. */
  lemma OwnedIsZero(y: Sync, l: LockId, a: Tid)
    requires Exclusive(y) && a in OwnersOf(y, l)
    ensures y.value(OfLock(l)) == 0 && OwnersOf(y, l) == {a}
  {
    forall b | b in OwnersOf(y, l) ensures b == a {
      OneOwner(y, l, a, b);
    }
    assert OwnersOf(y, l) == {a};
  }

  // ---------- one step ----------

  /** r moves on without changing what it owns. */
  lemma SameOwners(y: Sync, y': Sync, r: Tid, q: Pc)
    requires Exclusive(y) && r in y.threads
    requires y'.pc == Put(y.pc, r, q) && y'.threads == y.threads && y'.holder == y.holder
    requires forall l :: y'.value(OfLock(l)) == y.value(OfLock(l))
    requires forall l :: HasSemaphore(q, l) == HasSemaphore(y.pc(r), l)
    ensures Exclusive(y')
  {
    forall l ensures |OwnersOf(y', l)| + y'.value(OfLock(l)) == 1 {
      assert OwnersOf(y', l) == OwnersOf(y, l);
      assert |OwnersOf(y, l)| + y.value(OfLock(l)) == 1;
    }
  }

  lemma HeldMove(y: Sync, y': Sync, r: Tid, q: Pc)
    requires Held(y) && HeldOk(r, q, y.holder)
    requires y'.pc == Put(y.pc, r, q) && y'.threads == y.threads && y'.holder == y.holder
    ensures Held(y')
  {
  }

  /** A successful down of l's semaphore makes r its owner. */
  lemma TakeLock(y: Sync, r: Tid, l: LockId, tried: bool)
    requires Exclusive(y) && Held(y) && r in y.threads
    requires y.pc(r).LockDown? || y.pc(r).TryAcquire?
    requires y.pc(r).lock == l && y.value(OfLock(l)) > 0
    ensures var y' := Take(y, r, OfLock(l), Own(l, tried)); Exclusive(y') && Held(y')
  {
    var y' := Take(y, r, OfLock(l), Own(l, tried));
    assert HeldOk(r, y.pc(r), y.holder);
    HeldMove(y, y', r, Own(l, tried));
    forall k ensures |OwnersOf(y', k)| + y'.value(OfLock(k)) == 1 {
      assert |OwnersOf(y, k)| + y.value(OfLock(k)) == 1;
      if k == l {
        assert OwnersOf(y', k) == OwnersOf(y, k) + {r};
      } else {
        assert OwnersOf(y', k) == OwnersOf(y, k);
      }
    }
  }

  /** The sema_up of lock_release gives the lock up. */
  lemma GiveLock(y: Sync, y': Sync, r: Tid, l: LockId, q: Pc)
    requires Exclusive(y) && Held(y) && r in y.threads
    requires y.pc(r).ReleaseUp? && y.pc(r).lock == l
    requires !q.Own? && !q.ReleaseUp? && HeldOk(r, q, y.holder)
    requires y'.pc == Put(y.pc, r, q) && y'.threads == y.threads && y'.holder == y.holder
    requires forall k :: y'.value(OfLock(k)) == y.value(OfLock(k)) + if k == l then 1 else 0
    ensures Exclusive(y') && Held(y')
  {
    assert HeldOk(r, y.pc(r), y.holder);
    HeldMove(y, y', r, q);
    forall k ensures |OwnersOf(y', k)| + y'.value(OfLock(k)) == 1 {
      assert |OwnersOf(y, k)| + y.value(OfLock(k)) == 1;
      if k == l {
        assert OwnersOf(y', k) == OwnersOf(y, k) - {r};
      } else {
        assert OwnersOf(y', k) == OwnersOf(y, k);
      }
    }
  }

  /** A thread about to set or that has cleared l's holder field finds it null. */
  lemma NoHolder(y: Sync, r: Tid, l: LockId)
    requires Exclusive(y) && Held(y) && r in y.threads && HasSemaphore(y.pc(r), l)
    ensures y.holder(l) == None
  {
    assert HeldOk(r, y.pc(r), y.holder);
    if y.holder(l).Some? {
      OneOwner(y, l, r, y.holder(l).value);
    }
  }

  lemma SetHolderKeeps(y: Sync, r: Tid, l: LockId, tried: bool)
    requires Exclusive(y) && Held(y) && r in y.threads && y.pc(r) == Own(l, tried)
    ensures Exclusive(SetHolder(y, r, l, tried)) && Held(SetHolder(y, r, l, tried))
  {
    var y' := SetHolder(y, r, l, tried);
    NoHolder(y, r, l);
    forall k ensures |OwnersOf(y', k)| + y'.value(OfLock(k)) == 1 {
      assert |OwnersOf(y, k)| + y.value(OfLock(k)) == 1;
      if k == l {
        OwnedIsZero(y, l, r);
      }
      assert OwnersOf(y', k) == OwnersOf(y, k);
    }
    forall t ensures HeldOk(t, y'.pc(t), y'.holder) {
      if t != r {
        SetOtherHeld(y, r, l, t);
      }
    }
  }

  lemma SetOtherHeld(y: Sync, r: Tid, l: LockId, t: Tid)
    requires HeldOk(t, y.pc(t), y.holder) && y.holder(l) == None && t != r
    ensures HeldOk(t, y.pc(t), Put(y.holder, l, Some(r)))
  {
  }

  lemma ClearOtherHeld(y: Sync, r: Tid, l: LockId, t: Tid)
    requires HeldOk(t, y.pc(t), y.holder) && y.holder(l) == Some(r) && t != r
    ensures HeldOk(t, y.pc(t), Put(y.holder, l, None))
  {
  }

  /** lock_release clears the holder, and the thread is the owner until its sema_up. */
  lemma ClearHolderKeeps(y: Sync, y': Sync, r: Tid, l: LockId, next: Then)
    requires Exclusive(y) && Held(y) && r in y.threads && y.pc(r) == Release(l, next)
    requires y'.pc == Put(y.pc, r, ReleaseUp(l, next)) && y'.threads == y.threads
    requires y'.holder == Put(y.holder, l, None) && y'.value == y.value
    ensures Exclusive(y') && Held(y')
  {
    assert HeldOk(r, y.pc(r), y.holder);
    forall k ensures |OwnersOf(y', k)| + y'.value(OfLock(k)) == 1 {
      assert |OwnersOf(y, k)| + y.value(OfLock(k)) == 1;
      assert OwnersOf(y', k) == OwnersOf(y, k);
    }
    forall t ensures HeldOk(t, y'.pc(t), y'.holder) {
      if t != r {
        ClearOtherHeld(y, r, l, t);
      }
    }
  }

  /** Moves that leave ownership alone, whatever they store in other fields. */
  lemma MoveKeeps(y: Sync, y': Sync, r: Tid, q: Pc)
    requires Exclusive(y) && Held(y) && r in y.threads
    requires y'.pc == Put(y.pc, r, q) && y'.threads == y.threads && y'.holder == y.holder
    requires forall l :: y'.value(OfLock(l)) == y.value(OfLock(l))
    requires !y.pc(r).Own? && !y.pc(r).ReleaseUp? && !q.Own? && !q.ReleaseUp?
    requires HeldOk(r, q, y.holder)
    ensures Exclusive(y') && Held(y')
  {
    SameOwners(y, y', r, q);
    HeldMove(y, y', r, q);
  }

  lemma DownKeeps(y: Sync, r: Tid, sm: Sema)
    requires Exclusive(y) && Held(y) && r in y.threads && DownOn(r, y.pc(r)) == Some(sm)
    ensures Exclusive(Down(y, r, sm).0) && Held(Down(y, r, sm).0)
  {
    var y' := Down(y, r, sm).0;
    assert HeldOk(r, y.pc(r), y.holder);
    if y.value(sm) == 0 {
      MoveKeeps(y, y', r, Park(y.pc(r)));
    } else if sm.OfLock? {
      TakeLock(y, r, sm.lock, false);
    } else {
      MoveKeeps(y, y', r, AfterDown(y.pc(r)));
    }
  }

  lemma UpKeeps(y: Sync, r: Tid, sm: Sema)
    requires Exclusive(y) && Held(y) && r in y.threads && UpOn(y.pc(r)) == Some(sm)
    ensures Exclusive(Up(y, r, sm).0) && Held(Up(y, r, sm).0)
  {
    var y' := Up(y, r, sm).0;
    assert HeldOk(r, y.pc(r), y.holder);
    if sm.OfLock? {
      GiveLock(y, y', r, sm.lock, AfterUp(y.pc(r)));
    } else {
      MoveKeeps(y, y', r, AfterUp(y.pc(r)));
    }
  }

  lemma StartAcquireKeeps(y: Sync, r: Tid, l: LockId, path: seq<Tid>)
    requires Exclusive(y) && Held(y) && r in y.threads && y.pc(r) == Acquire(l)
    ensures var y' := StartAcquire(y, r, l, path).0; Exclusive(y') && Held(y')
  {
    assert HeldOk(r, y.pc(r), y.holder);
    var y1 := Move(y, r, LockDown(l, false));
    MoveKeeps(y, y1, r, LockDown(l, false));
    if y.holder(l).Some? {
      var y2 := Donate(y1, r, l, y.holder(l).value, path);
      MoveKeeps(y, y2, r, LockDown(l, false));
      DownKeeps(y2, r, OfLock(l));
    }
  }

  lemma ReleaseKeeps(y: Sync, r: Tid, l: LockId, next: Then)
    requires Exclusive(y) && Held(y) && r in y.threads && y.pc(r) == Release(l, next)
    ensures Exclusive(Unhold(y, r, l, next)) && Held(Unhold(y, r, l, next))
  {
    hide Exclusive, Held;
    ClearHolderKeeps(y, Unhold(y, r, l, next), r, l, next);
  }

  lemma HeldAt(y: Sync, t: Tid)
    requires Held(y)
    ensures HeldOk(t, y.pc(t), y.holder)
  {
  }

  /** At these points a step concerns no lock's semaphore and no holder. */
  predicate AwayFromLocks(pc: Pc) {
    pc.CondWait? || pc.Signal? || pc.Broadcast? || pc.Sleep? || pc.PlainTry? || pc.SetPriority? || pc.Yield? || pc.Asleep?
  }

  lemma AwayKeeps(y: Sync, r: Tid, path: seq<Tid>, order: seq<Tid>)
    requires Exclusive(y) && Held(y) && r in y.threads && AwayFromLocks(y.pc(r))
    ensures var y' := Exec(y, r, path, order).0; Exclusive(y') && Held(y')
  {
    hide Exclusive, Held;
    HeldAt(y, r);
    var y' := Exec(y, r, path, order).0;
    MoveKeeps(y, y', r, y'.pc(r));
  }

  /** Whatever the running thread does next, each lock keeps at most one owner. */
  lemma RunKeepsOwnership(y: Sync, r: Tid, path: seq<Tid>, order: seq<Tid>)
    requires Exclusive(y) && Held(y) && r in y.threads
    ensures var y' := Exec(y, r, path, order).0; Exclusive(y') && Held(y')
  {
    hide Exclusive, Held, Down, Up, Try, StartAcquire, SetHolder, Unhold, Assign, StartWait, StartSignal;
    match y.pc(r) {
      case User =>
      case IdleLoop =>
      case PlainDown(n, _) => DownKeeps(y, r, Named(n));
      case LockDown(l, _) => DownKeeps(y, r, OfLock(l));
      case WaitDown(_, _) => DownKeeps(y, r, OfWaiter(r));
      case PlainUp(n) => UpKeeps(y, r, Named(n));
      case ReleaseUp(l, _) => UpKeeps(y, r, OfLock(l));
      case SignalUp(_, t, _) => UpKeeps(y, r, OfWaiter(t));
      case TryAcquire(l) => TryKeeps(y, r, l);
      case Acquire(l) => StartAcquireKeeps(y, r, l, path);
      case Own(l, tried) => SetHolderKeeps(y, r, l, tried);
      case Release(l, next) => ReleaseKeeps(y, r, l, next);
      case _ => AwayKeeps(y, r, path, order);
    }
  }

  lemma TryKeeps(y: Sync, r: Tid, l: LockId)
    requires Exclusive(y) && Held(y) && r in y.threads && y.pc(r) == TryAcquire(l)
    ensures var y' := Try(y, r, OfLock(l), Own(l, true)); Exclusive(y') && Held(y')
  {
    if y.value(OfLock(l)) > 0 {
      TakeLock(y, r, l, true);
    } else {
      MoveKeeps(y, Move(y, r, User), r, User);
    }
  }

  lemma CallKeepsOwnership(y: Sync, r: Tid, op: Pc)
    requires Exclusive(y) && Held(y) && r in y.threads && y.pc(r) == User && CallOk(y, r, op)
    ensures Exclusive(Move(y, r, op)) && Held(Move(y, r, op))
  {
    MoveKeeps(y, Move(y, r, op), r, op);
  }

  lemma AddKeepsOwnership(y: Sync, t: Tid, p: int)
    requires Exclusive(y) && Held(y) && t !in y.threads
    ensures Exclusive(AddThread(y, t, p)) && Held(AddThread(y, t, p))
  {
    var y' := AddThread(y, t, p);
    forall l ensures |OwnersOf(y', l)| + y'.value(OfLock(l)) == 1 {
      assert |OwnersOf(y, l)| + y.value(OfLock(l)) == 1;
      assert OwnersOf(y', l) == OwnersOf(y, l);
    }
  }
}
