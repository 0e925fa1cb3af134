/** Condition variables: each waiter is queued, being signalled, or free to go on. */
module Conditions {
  import opened Lists
  import opened Machine
  import opened Parking
  import opened Ownership

  /** Inside cond_wait(c), between the insertion into the queue and the end of sema_down. */
  predicate InWait(pc: Pc, c: Cond) {
    match pc
    case Release(_, WaitOn(d)) => d == c
    case ReleaseUp(_, WaitOn(d)) => d == c
    case WaitDown(d, _) => d == c
    case _ => false
  }

  /** t has been taken from c's queue by the lock's holder, whose sema_up is still to come. */
  ghost predicate InFlight(y: Sync, c: Cond, t: Tid) {
    && y.holder(c.lock).Some?
    && var u := y.holder(c.lock).value;
    y.pc(u).SignalUp? && y.pc(u).cond == c && y.pc(u).chosen == t
  }

  ghost predicate Unsignalled(y: Sync, c: Cond, t: Tid) {
    InWait(y.pc(t), c) && y.value(OfWaiter(t)) == 0
  }

  /** A signalled waiter's semaphore is up, so its next test of it succeeds. */
  ghost predicate Signalled(y: Sync, t: Tid) {
    y.value(OfWaiter(t)) == 1 && y.waiters(OfWaiter(t)) == []
  }

  ghost predicate WaiterOk(y: Sync, c: Cond, t: Tid) {
    InWait(y.pc(t), c) ==> t in y.queue(c) || InFlight(y, c, t) || Signalled(y, t)
  }

  ghost predicate Queues(y: Sync) {
    && (forall c :: NoDup(y.queue(c)))
    && (forall c, t :: t in y.queue(c) ==> Unsignalled(y, c, t))
    && (forall c, t :: WaiterOk(y, c, t))
    && (forall u :: y.pc(u).SignalUp? ==>
          && Unsignalled(y, y.pc(u).cond, y.pc(u).chosen)
          && y.pc(u).chosen !in y.queue(y.pc(u).cond))
  }

  /** The lock's holder is the only thread that can be signalling. */
  lemma OneSignaller(y: Sync, c: Cond, u: Tid)
    requires Held(y) && y.pc(u).SignalUp? && y.pc(u).cond == c
    ensures y.holder(c.lock) == Some(u) && InFlight(y, c, y.pc(u).chosen)
  {
    assert HeldOk(u, y.pc(u), y.holder);
  }

  // ---------- one step ----------

  /** r moves on outside condition variables. */
  lemma QueuesMove(y: Sync, y': Sync, r: Tid, q: Pc)
    requires Queues(y) && Held(y)
    requires y'.pc == Put(y.pc, r, q) && y'.queue == y.queue
    requires forall l :: y.holder(l).Some? && y'.holder(l) != y.holder(l) ==> y.holder(l) == Some(r)
    requires !y.pc(r).SignalUp? && !q.SignalUp?
    requires forall c :: InWait(q, c) == InWait(y.pc(r), c)
    requires forall t :: y'.value(OfWaiter(t)) == y.value(OfWaiter(t))
    requires forall t :: y.waiters(OfWaiter(t)) == [] && y.value(OfWaiter(t)) == 1 ==> y'.waiters(OfWaiter(t)) == []
    ensures Queues(y')
  {
    forall c, t ensures WaiterOk(y', c, t) {
      assert WaiterOk(y, c, t);
    }
  }

  /** A waiter leaves its sema_down only after its signal. */
  lemma WaiterGoesOn(y: Sync, r: Tid, c: Cond)
    requires Queues(y) && Held(y) && DownOn(r, y.pc(r)) == Some(OfWaiter(r)) && y.pc(r).cond == c
    requires y.value(OfWaiter(r)) > 0
    ensures Queues(Take(y, r, OfWaiter(r), Acquire(c.lock)))
  {
    var y' := Take(y, r, OfWaiter(r), Acquire(c.lock));
    assert WaiterOk(y, c, r);
    assert forall d :: r !in y.queue(d);
    assert forall u :: y.pc(u).SignalUp? ==> y.pc(u).chosen != r;
    forall d, t ensures WaiterOk(y', d, t) {
      assert WaiterOk(y, d, t);
    }
  }

  /** Taking the waiter from its own semaphore leaves nobody there. */
  lemma AloneOnOwn(y: Sync, t: Tid)
    requires Parked(y) && y.waiters(OfWaiter(t)) != []
    ensures Sort(y.prio, y.waiters(OfWaiter(t))) == [t]
  {
    Popped(y, OfWaiter(t));
    var q := Sort(y.prio, y.waiters(OfWaiter(t)));
    forall u ensures u in y.waiters(OfWaiter(t)) ==> u == t {
      assert u in y.waiters(OfWaiter(t)) ==> ParkedOn(u, y.pc(u), OfWaiter(t));
    }
    var h := q[0];
    assert h == t;
    EmptyWithoutMembers(q[1..]);
    assert q == [q[0]] + q[1..];
  }

  /** The sema_up of cond_signal: the chosen waiter becomes signalled. */
  lemma SignalArrives(y: Sync, r: Tid, c: Cond, t: Tid, more: bool)
    requires Queues(y) && Parked(y) && Held(y) && y.pc(r) == SignalUp(c, t, more)
    ensures Queues(Up(y, r, OfWaiter(t)).0)
    ensures Signalled(Up(y, r, OfWaiter(t)).0, t)
  {
    hide Queues, Parked, Held, NoDup, WaiterOk;
    var y' := Up(y, r, OfWaiter(t)).0;
    SignallerAt(y, r);
    if y.waiters(OfWaiter(t)) != [] {
      AloneOnOwn(y, t);
    }
    NotQueued(y, r, c, t);
    forall d, u ensures WaiterOk(y', d, u) && (u in y'.queue(d) ==> Unsignalled(y', d, u)) {
      QueuesAt(y, d, u);
      SignalKeepsWaiter(y, r, c, t, d, u);
    }
    forall u ensures SignallerOk(y', u) {
      SignallerAt(y, u);
    }
    forall d ensures NoDup(y'.queue(d)) {
      QueuesAt(y, d, t);
    }
    QueuesFrom(y');
  }

  lemma SignalKeepsWaiter(y: Sync, r: Tid, c: Cond, t: Tid, d: Cond, u: Tid)
    requires WaiterOk(y, d, u) && y.pc(r).SignalUp? && y.pc(r).cond == c && y.pc(r).chosen == t
    requires y.value(OfWaiter(t)) == 0
    requires y.waiters(OfWaiter(t)) != [] ==> |Sort(y.prio, y.waiters(OfWaiter(t)))| == 1
    ensures WaiterOk(Up(y, r, OfWaiter(t)).0, d, u)
  {
    var y' := Up(y, r, OfWaiter(t)).0;
    if u == t {
      assert Signalled(y', t);
    } else if InFlight(y, d, u) {
      assert y.holder(d.lock).value != r;
    }
  }

  /** The thread being signalled is in no queue, and nobody else signals it. */
  lemma NotQueued(y: Sync, r: Tid, c: Cond, t: Tid)
    requires Queues(y) && Held(y) && y.pc(r).SignalUp? && y.pc(r).cond == c && y.pc(r).chosen == t
    ensures forall d :: t !in y.queue(d)
    ensures forall u :: u != r && y.pc(u).SignalUp? ==> y.pc(u).chosen != t
  {
    forall d ensures t !in y.queue(d) {
      assert t in y.queue(d) ==> Unsignalled(y, d, t);
      assert Unsignalled(y, c, t);
      OneWait(y.pc(t), c, d);
    }
    forall u | u != r && y.pc(u).SignalUp? ensures y.pc(u).chosen != t {
      OneSignaller(y, c, r);
      OneSignaller(y, y.pc(u).cond, u);
      OneWait(y.pc(t), c, y.pc(u).cond);
    }
  }

  lemma OneWait(pc: Pc, c: Cond, d: Cond)
    ensures InWait(pc, c) && InWait(pc, d) ==> c == d
  {
  }

  /** cond_wait queues a thread that was not queued. */
  lemma StartWaitKeepsQueues(y: Sync, r: Tid, c: Cond, order: seq<Tid>)
    requires Queues(y) && Held(y) && y.pc(r) == CondWait(c) && InsertedAnywhere(y.queue(c), r, order)
    ensures Queues(StartWait(y, r, c, order))
  {
    hide Queues, InsertedAnywhere, NoDup;
    var y' := StartWait(y, r, c, order);
    Inserted(y.queue(c), r, order);
    forall d, t ensures WaiterOk(y', d, t) && (t in y'.queue(d) ==> Unsignalled(y', d, t)) {
      QueuesAt(y, d, t);
      QueuesAt(y, d, r);
    }
    forall u ensures SignallerOk(y', u) {
      SignallerAt(y, u);
    }
    forall d ensures NoDup(y'.queue(d)) {
      QueuesAt(y, d, r);
      if d == c {
        InsertedNoDup(y.queue(c), r, order);
      }
    }
    QueuesFrom(y');
  }

  /** The last clause of Queues for one thread. */
  ghost predicate SignallerOk(y: Sync, u: Tid) {
    y.pc(u).SignalUp? ==>
      Unsignalled(y, y.pc(u).cond, y.pc(u).chosen) && y.pc(u).chosen !in y.queue(y.pc(u).cond)
  }

  lemma QueuesAt(y: Sync, c: Cond, t: Tid)
    requires Queues(y)
    ensures NoDup(y.queue(c)) && WaiterOk(y, c, t) && (t in y.queue(c) ==> Unsignalled(y, c, t))
  {
  }

  lemma SignallerAt(y: Sync, u: Tid)
    requires Queues(y)
    ensures SignallerOk(y, u)
  {
  }

  lemma QueuesFrom(y: Sync)
    requires forall c :: NoDup(y.queue(c))
    requires forall c, t :: WaiterOk(y, c, t) && (t in y.queue(c) ==> Unsignalled(y, c, t))
    requires forall u :: SignallerOk(y, u)
    ensures Queues(y)
  {
    forall c, t | t in y.queue(c) ensures Unsignalled(y, c, t) {
      assert WaiterOk(y, c, t);
    }
    forall u | y.pc(u).SignalUp?
      ensures Unsignalled(y, y.pc(u).cond, y.pc(u).chosen) && y.pc(u).chosen !in y.queue(y.pc(u).cond)
    {
      assert SignallerOk(y, u);
    }
  }

  lemma Inserted(xs: seq<Tid>, t: Tid, order: seq<Tid>)
    requires InsertedAnywhere(xs, t, order)
    ensures multiset(order) == multiset(xs) + multiset{t}
    ensures forall u :: u in order <==> u in xs || u == t
  {
    var i :| 0 <= i <= |xs| && order == xs[..i] + [t] + xs[i..];
    assert xs == xs[..i] + xs[i..];
    SameMembers(order, xs + [t]);
  }

  lemma InsertedNoDup(xs: seq<Tid>, t: Tid, order: seq<Tid>)
    requires InsertedAnywhere(xs, t, order) && NoDup(xs) && t !in xs
    ensures NoDup(order)
  {
    Inserted(xs, t, order);
    forall u | u in order ensures multiset(order)[u] == 1 {
      assert t !in multiset(xs);
      assert u in xs ==> multiset(xs)[u] == 1;
    }
  }

  /** cond_signal takes one waiter from the queue. */
  lemma StartSignalKeepsQueues(y: Sync, r: Tid, c: Cond, more: bool, order: seq<Tid>)
    requires Queues(y) && Held(y) && y.pc(r) == Signal(c, more) && multiset(order) == multiset(y.queue(c))
    ensures Queues(StartSignal(y, r, c, more, order))
  {
    var y' := StartSignal(y, r, c, more, order);
    assert HeldOk(r, y.pc(r), y.holder);
    SameMembers(order, y.queue(c));
    if order == [] {
      QueuesMove(y, y', r, y'.pc(r));
    } else {
      Dequeued(y.queue(c), order);
      assert Unsignalled(y, c, order[0]);
      forall u | y'.pc(u).SignalUp?
        ensures Unsignalled(y', y'.pc(u).cond, y'.pc(u).chosen) && y'.pc(u).chosen !in y'.queue(y'.pc(u).cond)
      {
        if u != r {
          OneSignaller(y, y.pc(u).cond, u);
        }
      }
      forall d, t ensures WaiterOk(y', d, t) {
        assert WaiterOk(y, d, t);
      }
    }
  }

  lemma Dequeued(xs: seq<Tid>, order: seq<Tid>)
    requires multiset(order) == multiset(xs) && NoDup(xs) && order != []
    ensures NoDup(order[1..]) && order[0] in xs
    ensures forall t :: t in order[1..] <==> t in xs && t != order[0]
  {
    SameMembers(order, xs);
    assert NoDup(order);
    NoDupTail(order);
    assert order[0] in order;
  }

  lemma DownKeepsQueues(y: Sync, r: Tid, sm: Sema)
    requires Queues(y) && Held(y) && DownOn(r, y.pc(r)) == Some(sm)
    ensures Queues(Down(y, r, sm).0)
  {
    if y.value(sm) == 0 {
      QueuesMove(y, ParkAt(y, r, sm), r, Park(y.pc(r)));
    } else if sm.OfWaiter? {
      WaiterGoesOn(y, r, y.pc(r).cond);
    } else {
      QueuesMove(y, Down(y, r, sm).0, r, AfterDown(y.pc(r)));
    }
  }

  lemma UpKeepsQueues(y: Sync, r: Tid, sm: Sema)
    requires Queues(y) && Parked(y) && Held(y) && UpOn(y.pc(r)) == Some(sm)
    ensures Queues(Up(y, r, sm).0)
  {
    if sm.OfWaiter? {
      SignalArrives(y, r, y.pc(r).cond, sm.waiter, y.pc(r).more);
    } else {
      QueuesMove(y, Up(y, r, sm).0, r, AfterUp(y.pc(r)));
    }
  }

  lemma StartAcquireKeepsQueues(y: Sync, r: Tid, l: LockId, path: seq<Tid>)
    requires Queues(y) && Held(y) && y.pc(r) == Acquire(l)
    ensures Queues(StartAcquire(y, r, l, path).0)
  {
    var y1 := Move(y, r, LockDown(l, false));
    QueuesMove(y, y1, r, LockDown(l, false));
    if y.holder(l).Some? {
      assert HeldOk(r, y.pc(r), y.holder);
      HeldMove(y, y1, r, LockDown(l, false));
      var y2 := Donate(y1, r, l, y.holder(l).value, path);
      assert Held(y2);
      QueuesMove(y, y2, r, LockDown(l, false));
      DownKeepsQueues(y2, r, OfLock(l));
    }
  }

  lemma ReleaseKeepsQueues(y: Sync, r: Tid, l: LockId, next: Then)
    requires Queues(y) && Held(y) && y.pc(r) == Release(l, next)
    ensures Queues(Unhold(y, r, l, next))
  {
    hide Queues, Held;
    HeldAt(y, r);
    QueuesMove(y, Unhold(y, r, l, next), r, ReleaseUp(l, next));
  }

  /** Whatever the running thread does next, no condition waiter is forgotten. */
  lemma RunKeepsQueues(y: Sync, r: Tid, path: seq<Tid>, order: seq<Tid>)
    requires Queues(y) && Parked(y) && Active(y, r) && Exclusive(y) && Held(y) && CanRun(y, r, path, order)
    ensures Queues(Exec(y, r, path, order).0)
  {
    hide Queues, Parked, Active, Exclusive, Held, Down, Up, StartAcquire, StartWait, StartSignal, Unhold;
    var y' := Exec(y, r, path, order).0;
    HeldAt(y, r);
    match y.pc(r) {
      case User =>
      case PlainDown(n, _) => DownKeepsQueues(y, r, Named(n));
      case LockDown(l, _) => DownKeepsQueues(y, r, OfLock(l));
      case WaitDown(_, _) => DownKeepsQueues(y, r, OfWaiter(r));
      case PlainUp(n) => UpKeepsQueues(y, r, Named(n));
      case ReleaseUp(l, _) => UpKeepsQueues(y, r, OfLock(l));
      case SignalUp(_, t, _) => UpKeepsQueues(y, r, OfWaiter(t));
      case PlainTry(n) => QueuesMove(y, y', r, User);
      case TryAcquire(l) => QueuesMove(y, y', r, y'.pc(r));
      case Acquire(l) => StartAcquireKeepsQueues(y, r, l, path);
      case Own(l, tried) =>
        ActiveIsThread(y, r);
        NoHolder(y, r, l);
        QueuesMove(y, y', r, User);
      case Release(l, next) => ReleaseKeepsQueues(y, r, l, next);
      case CondWait(c) => StartWaitKeepsQueues(y, r, c, order);
      case Signal(c, more) => StartSignalKeepsQueues(y, r, c, more, order);
      case Broadcast(c) => QueuesMove(y, y', r, y'.pc(r));
      case SetPriority(p) => QueuesMove(y, y', r, User);
      case Yield => QueuesMove(y, y', r, User);
      case Sleep(d) => QueuesMove(y, y', r, Asleep);
      case Asleep => QueuesMove(y, y', r, User);
      case IdleLoop =>
    }
  }

  lemma CallKeepsQueues(y: Sync, r: Tid, op: Pc)
    requires Queues(y) && Held(y) && y.pc(r) == User && CallOk(y, r, op)
    ensures Queues(Move(y, r, op))
  {
    QueuesMove(y, Move(y, r, op), r, op);
  }

  lemma AddKeepsQueues(y: Sync, t: Tid, p: int)
    requires Queues(y) && Parked(y) && t !in y.threads
    ensures Queues(AddThread(y, t, p))
  {
    var y' := AddThread(y, t, p);
    assert y.pc(t) == User;
    forall c, u ensures WaiterOk(y', c, u) {
      assert WaiterOk(y, c, u);
    }
    assert forall u :: y'.pc(u) == y.pc(u);
  }

  // ---------- woken waiters ----------

  /** A thread woken in cond_wait's sema_down finds its semaphore up. */
  ghost predicate OnlySignalled(y: Sync) {
    forall t :: WokenInWait(y, t) ==> y.value(OfWaiter(t)) > 0
  }

  /** t has left the queue of its own semaphore and not tested the value since. */
  ghost predicate WokenInWait(y: Sync, t: Tid) {
    y.pc(t).WaitDown? && y.pc(t).parked && t !in y.waiters(OfWaiter(t))
  }

  /** What a step must leave alone for t's sake. */
  lemma WokenFrame(y: Sync, y': Sync, t: Tid)
    requires OnlySignalled(y) && y'.pc(t) == y.pc(t) && y'.value(OfWaiter(t)) >= y.value(OfWaiter(t))
    requires t in y.waiters(OfWaiter(t)) && t !in y'.waiters(OfWaiter(t)) ==> y'.value(OfWaiter(t)) > 0
    ensures WokenInWait(y', t) ==> y'.value(OfWaiter(t)) > 0
  {
    assert WokenInWait(y', t) && t !in y.waiters(OfWaiter(t)) ==> WokenInWait(y, t);
  }

  lemma DownKeepsSignalled(y: Sync, r: Tid, sm: Sema, t: Tid)
    requires OnlySignalled(y) && DownOn(r, y.pc(r)) == Some(sm)
    ensures WokenInWait(Down(y, r, sm).0, t) ==> Down(y, r, sm).0.value(OfWaiter(t)) > 0
  {
    var y' := Down(y, r, sm).0;
    if y.value(sm) == 0 {
      InsertMembers(y.prio, y.waiters(sm), r);
    }
    if t != r {
      WokenFrame(y, y', t);
    }
  }

  lemma UpKeepsSignalled(y: Sync, r: Tid, sm: Sema, t: Tid)
    requires OnlySignalled(y) && Parked(y) && UpOn(y.pc(r)) == Some(sm)
    ensures WokenInWait(Up(y, r, sm).0, t) ==> Up(y, r, sm).0.value(OfWaiter(t)) > 0
  {
    var y' := Up(y, r, sm).0;
    if y.waiters(sm) != [] {
      Popped(y, sm);
    }
    if t != r {
      WokenFrame(y, y', t);
    }
  }

  lemma AcquireKeepsSignalled(y: Sync, r: Tid, l: LockId, path: seq<Tid>, t: Tid)
    requires OnlySignalled(y) && y.pc(r) == Acquire(l)
    ensures var y' := StartAcquire(y, r, l, path).0; WokenInWait(y', t) ==> y'.value(OfWaiter(t)) > 0
  {
    if t != r {
      WokenFrame(y, StartAcquire(y, r, l, path).0, t);
    }
  }

  /** Moves outside sema_down and sema_up. */
  lemma MoveKeepsSignalled(y: Sync, y': Sync, r: Tid, t: Tid)
    requires OnlySignalled(y) && y'.pc == Put(y.pc, r, y'.pc(r))
    requires y'.pc(r).WaitDown? ==> !y'.pc(r).parked
    requires t != r ==> y'.value(OfWaiter(t)) >= y.value(OfWaiter(t)) && y'.waiters(OfWaiter(t)) == y.waiters(OfWaiter(t))
    ensures WokenInWait(y', t) ==> y'.value(OfWaiter(t)) > 0
  {
    if t != r {
      WokenFrame(y, y', t);
    }
  }

  /** Whatever the running thread does next, no waiter is woken but by its signal. */
  lemma RunKeepsSignalled(y: Sync, r: Tid, path: seq<Tid>, order: seq<Tid>)
    requires OnlySignalled(y) && Parked(y)
    ensures OnlySignalled(Exec(y, r, path, order).0)
  {
    hide OnlySignalled, WokenInWait, Parked, Down, Up, StartAcquire;
    var y' := Exec(y, r, path, order).0;
    forall t ensures WokenInWait(y', t) ==> y'.value(OfWaiter(t)) > 0 {
      match y.pc(r) {
        case User => SignalledAt(y, t);
        case PlainDown(n, _) => DownKeepsSignalled(y, r, Named(n), t);
        case LockDown(l, _) => DownKeepsSignalled(y, r, OfLock(l), t);
        case WaitDown(_, _) => DownKeepsSignalled(y, r, OfWaiter(r), t);
        case PlainUp(n) => UpKeepsSignalled(y, r, Named(n), t);
        case ReleaseUp(l, _) => UpKeepsSignalled(y, r, OfLock(l), t);
        case SignalUp(_, u, _) => UpKeepsSignalled(y, r, OfWaiter(u), t);
        case Acquire(l) => AcquireKeepsSignalled(y, r, l, path, t);
        case IdleLoop => SignalledAt(y, t);
        case _ => MoveKeepsSignalled(y, y', r, t);
      }
    }
    SignalledIs(y');
  }

  lemma SignalledAt(y: Sync, t: Tid)
    requires OnlySignalled(y)
    ensures WokenInWait(y, t) ==> y.value(OfWaiter(t)) > 0
  {
  }

  lemma SignalledIs(y: Sync)
    requires forall t :: WokenInWait(y, t) ==> y.value(OfWaiter(t)) > 0
    ensures OnlySignalled(y)
  {
  }

  lemma AddKeepsSignalled(y: Sync, t: Tid, p: int)
    requires OnlySignalled(y)
    ensures OnlySignalled(AddThread(y, t, p))
  {
    forall u ensures WokenInWait(AddThread(y, t, p), u) ==> AddThread(y, t, p).value(OfWaiter(u)) > 0 {
      SignalledAt(y, u);
    }
  }
}
