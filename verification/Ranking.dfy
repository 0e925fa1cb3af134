/**
 Locks acquired in the order of a ranking. The waits that donate_priority follows
 are not all there are: lock_release clears waiting_lock of threads that stay
 blocked. Here a thread waits for a lock as long as it is in the sema_down of
 lock_acquire, and still no threads wait for one another in a circle.
 */
module Ranking {
  import opened Lists
  import opened Machine
  import opened Ownership
  import opened Donation
  import opened Chains
  import opened Invariant
  import opened Runs

  /** While t is in lock_acquire for l, all locks it holds rank below l. */
  ghost predicate OrderlyAt(y: Sync, rank: LockId -> int, t: Tid) {
    forall k, l :: AwaitsLock(y.pc(t), l) && y.holder(k) == Some(t) ==> rank(k) < rank(l)
  }

  ghost predicate Orderly(y: Sync, rank: LockId -> int) {
    forall t :: OrderlyAt(y, rank, t)
  }

  /** t is in lock_acquire for a lock that u holds. */
  ghost predicate WaitsFor(y: Sync, t: Tid, u: Tid) {
    y.pc(t).LockDown? && y.holder(y.pc(t).lock) == Some(u)
  }

  ghost predicate IsPath(y: Sync, ts: seq<Tid>) {
    forall i :: 0 <= i < |ts| - 1 ==> WaitsFor(y, ts[i], ts[i + 1])
  }

  // ---------- no circle of waits ----------

  /** Along a path each thread holds a lock at least as high as the one the first waits for. */
  lemma {:induction false} PathRises(y: Sync, rank: LockId -> int, ts: seq<Tid>)
    requires Orderly(y, rank) && IsPath(y, ts) && |ts| > 1
    ensures y.pc(ts[0]).LockDown?
    ensures exists k :: y.holder(k) == Some(ts[|ts| - 1]) && rank(k) >= rank(y.pc(ts[0]).lock)
  {
    var n := |ts| - 1;
    assert WaitsFor(y, ts[0], ts[1]) && WaitsFor(y, ts[n - 1], ts[n]);
    if n > 1 {
      PathRises(y, rank, ts[..n]);
      var k :| y.holder(k) == Some(ts[n - 1]) && rank(k) >= rank(y.pc(ts[0]).lock);
      assert OrderlyAt(y, rank, ts[n - 1]);
    }
  }

  /** No thread waits for itself, directly or through others. */
  lemma NoCircle(y: Sync, rank: LockId -> int, ts: seq<Tid>)
    requires Orderly(y, rank) && IsPath(y, ts) && |ts| > 1
    ensures ts[0] != ts[|ts| - 1]
  {
    PathRises(y, rank, ts);
    assert WaitsFor(y, ts[0], ts[1]);
    assert OrderlyAt(y, rank, ts[0]);
  }

  // ---------- each step ----------

  /** A thread begins to wait in a step of lock_acquire only, and holds what it held. */
  lemma ExecAwaits(y: Sync, r: Tid, path: seq<Tid>, order: seq<Tid>, l: LockId)
    requires AwaitsLock(Exec(y, r, path, order).0.pc(r), l)
    ensures y.pc(r) == Acquire(l) || AwaitsLock(y.pc(r), l)
    ensures Exec(y, r, path, order).0.holder == y.holder
  {
    hide Up, Down, StartAcquire, Unhold, Assign;
    match y.pc(r) {
      case PlainDown(n, _) => DownAwaits(y, r, Named(n), l);
      case LockDown(k, _) => DownAwaits(y, r, OfLock(k), l);
      case WaitDown(_, _) => DownAwaits(y, r, OfWaiter(r), l);
      case PlainUp(n) => UpAwaits(y, r, Named(n), l);
      case ReleaseUp(k, _) => UpAwaits(y, r, OfLock(k), l);
      case SignalUp(_, t, _) => UpAwaits(y, r, OfWaiter(t), l);
      case Acquire(k) => AcquireAwaits(y, r, k, path, l);
      case Release(k, next) => ReleaseAwaits(y, r, k, next, l);
      case SetPriority(p) => AssignAwaits(y, r, p, l);
      case _ =>
    }
  }

  lemma DownAwaits(y: Sync, r: Tid, n: Sema, l: LockId)
    requires DownOn(r, y.pc(r)) == Some(n) && AwaitsLock(Down(y, r, n).0.pc(r), l)
    ensures AwaitsLock(y.pc(r), l) && Down(y, r, n).0.holder == y.holder
  {
  }

  lemma UpAwaits(y: Sync, r: Tid, n: Sema, l: LockId)
    ensures !AwaitsLock(Up(y, r, n).0.pc(r), l)
  {
    hide Sort;
  }

  lemma AcquireAwaits(y: Sync, r: Tid, k: LockId, path: seq<Tid>, l: LockId)
    requires AwaitsLock(StartAcquire(y, r, k, path).0.pc(r), l)
    ensures k == l && StartAcquire(y, r, k, path).0.holder == y.holder
  {
    hide Insert;
  }

  lemma ReleaseAwaits(y: Sync, r: Tid, k: LockId, next: Then, l: LockId)
    ensures !AwaitsLock(Unhold(y, r, k, next).pc(r), l)
  {
    hide Sort, Filter;
  }

  lemma AssignAwaits(y: Sync, r: Tid, p: int, l: LockId)
    ensures !AwaitsLock(Assign(y, r, p).pc(r), l)
  {
    hide Sort;
  }

  /** A step gives locks to nobody but the running thread. */
  lemma ExecGivesNone(y: Sync, r: Tid, path: seq<Tid>, order: seq<Tid>, t: Tid, k: LockId)
    requires t != r && Exec(y, r, path, order).0.holder(k) == Some(t)
    ensures y.holder(k) == Some(t)
  {
    hide Sort, Insert, Filter, Freed, Kept;
  }

  lemma StepKeepsOrderly(rank: LockId -> int, s: State, e: Event)
    requires Inv(s) && Orderly(s.sync, rank) && Enabled(s, e) && KeepsRanking(rank, s, e)
    ensures Orderly(Step(s, e).sync, rank)
  {
    hide Inv, Exec, Act, TimerTick, StartThread, Schedule;
    var y, y', r := s.sync, Step(s, e).sync, s.cpu.running;
    forall t ensures OrderlyAt(y', rank, t) {
      assert OrderlyAt(y, rank, t);
      if e.Run? {
        forall k, l | AwaitsLock(y'.pc(t), l) && y'.holder(k) == Some(t) ensures rank(k) < rank(l) {
          if t == r {
            ExecAwaits(y, r, e.path, e.order, l);
          } else {
            ExecMovesOne(y, r, e.path, e.order, t);
            ExecGivesNone(y, r, e.path, e.order, t, k);
          }
        }
      }
    }
  }

  /** If all threads acquire locks in rank order, no threads ever wait for one another in a circle. */
  lemma NeverACircle(rank: LockId -> int, ss: seq<State>, es: seq<Event>, i: nat, ts: seq<Tid>)
    requires IsRun(ss, es) && Boot(ss[0]) && i < |ss|
    requires forall j :: 0 <= j < i ==> KeepsRanking(rank, ss[j], es[j])
    requires IsPath(ss[i].sync, ts) && |ts| > 1
    ensures ts[0] != ts[|ts| - 1]
  {
    OrderlyThroughout(rank, ss, es, i);
    NoCircle(ss[i].sync, rank, ts);
  }

  lemma {:induction false} OrderlyThroughout(rank: LockId -> int, ss: seq<State>, es: seq<Event>, i: nat)
    requires IsRun(ss, es) && Boot(ss[0]) && i < |ss|
    requires forall j :: 0 <= j < i ==> KeepsRanking(rank, ss[j], es[j])
    ensures Orderly(ss[i].sync, rank)
  {
    hide Orderly, KeepsRanking, Inv, Step, Enabled;
    if i == 0 {
      BootIsOrderly(ss[0], rank);
    } else {
      OrderlyThroughout(rank, ss, es, i - 1);
      EveryState(ss, es, i - 1);
      StepKeepsOrderly(rank, ss[i - 1], es[i - 1]);
    }
  }

  lemma BootIsOrderly(s: State, rank: LockId -> int)
    requires Boot(s)
    ensures Orderly(s.sync, rank)
  {
  }
}
