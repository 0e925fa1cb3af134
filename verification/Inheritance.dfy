/**
 Which of the threads blocked on a lock donate to its holder. lock_release frees
 all of them and wakes one; the others stay blocked and no longer donate to
 anybody, whoever takes the lock next.
 */
module Inheritance {
  import opened Lists
  import opened Machine
  import opened Parking
  import opened Ownership
  import opened Donation
  import opened Priority
  import opened Chains
  import opened Invariant
  import opened Runs
  import opened Scenarios

  /** From y to y' thread t keeps its wait for l if there still is a holder, and loses it otherwise. */
  ghost predicate KeepsWait(y: Sync, y': Sync, t: Tid, l: LockId) {
    y'.waiting(t) == Some(l) <==> y.waiting(t) == Some(l) && y'.holder(l).Some?
  }

  /** A thread that awaits l goes on donating to l's holder exactly as long as there is one. */
  lemma StepDonatesIff(s: State, e: Event, t: Tid, l: LockId)
    requires Inv(s) && Enabled(s, e) && AwaitsLock(s.sync.pc(t), l)
    ensures Step(s, e).sync.waiting(t) == Some(l) <==>
            s.sync.waiting(t) == Some(l) && Step(s, e).sync.holder(l).Some?
  {
    hide Inv, Graph, Held, Exec, Act, TimerTick, StartThread, Schedule;
    LocksFit(s);
    GraphAt(s.sync, t, t);
    match e {
      case Run(path, order) => RunKeepsWait(s.sync, s.cpu.running, path, order, t, l);
      case Create(u, p) => ActiveThread(s, t);
      case _ =>
    }
  }

  lemma RunKeepsWait(y: Sync, r: Tid, path: seq<Tid>, order: seq<Tid>, t: Tid, l: LockId)
    requires Graph(y) && Held(y) && AwaitsLock(y.pc(t), l)
    ensures KeepsWait(y, Exec(y, r, path, order).0, t, l)
  {
    hide Graph, Held, Exec;
    GraphAt(y, t, t);
    HeldAt(y, r);
    match y.pc(r) {
      case Own(k, tried) => OwnKeepsWait(y, r, k, tried, path, order, t, l);
      case Release(k, next) =>
        ExecIsUnhold(y, r, path, order);
        UnholdFrees(y, r, k, next, t);
      case Acquire(k) =>
        if y.holder(k).Some? {
          AcquireKeepsWait(y, r, k, path, order, t, l);
        } else {
          ExecLeavesWaits(y, r, path, order);
        }
      case _ => ExecLeavesWaits(y, r, path, order);
    }
  }

  lemma OwnKeepsWait(y: Sync, r: Tid, k: LockId, tried: bool, path: seq<Tid>, order: seq<Tid>, t: Tid, l: LockId)
    requires y.pc(r) == Own(k, tried) && AwaitsLock(y.pc(t), l) && DonorParked(y, t)
    ensures KeepsWait(y, Exec(y, r, path, order).0, t, l)
  {
  }

  lemma AcquireKeepsWait(y: Sync, r: Tid, k: LockId, path: seq<Tid>, order: seq<Tid>, t: Tid, l: LockId)
    requires y.pc(r) == Acquire(k) && y.holder(k).Some? && AwaitsLock(y.pc(t), l) && DonorParked(y, t)
    ensures KeepsWait(y, Exec(y, r, path, order).0, t, l)
  {
    hide Insert;
  }

  /** The first step of lock_acquire records the wait exactly if the lock has a holder. */
  lemma AsksIff(s: State, path: seq<Tid>, order: seq<Tid>, l: LockId)
    requires Inv(s) && s.sync.pc(s.cpu.running) == Acquire(l)
    ensures var y' := Step(s, Run(path, order)).sync;
            && (y'.waiting(s.cpu.running) == Some(l) <==> s.sync.holder(l).Some?)
            && y'.holder == s.sync.holder
  {
    hide Inv, Insert, Act;
    LocksFit(s);
  }

  /** t's call of lock_acquire for l is the step es[0], and t has not got past its sema_down since. */
  ghost predicate AwaitsSince(ss: seq<State>, es: seq<Event>, t: Tid, l: LockId) {
    && KernelRun(ss, es) && es != [] && es[0].Run?
    && ss[0].cpu.running == t && ss[0].sync.pc(t) == Acquire(l)
    && forall i :: 1 <= i < |ss| ==> AwaitsLock(ss[i].sync.pc(t), l)
  }

  /** A thread that has been in lock_acquire for l since ss[0] is one of the donors of l's
      holder if and only if l has had a holder in every state since. */
  lemma {:induction false} DonatesIff(ss: seq<State>, es: seq<Event>, t: Tid, l: LockId)
    requires AwaitsSince(ss, es, t, l)
    ensures ss[|es|].sync.waiting(t) == Some(l) <==> forall i :: 0 <= i < |ss| ==> ss[i].sync.holder(l).Some?
  {
    hide Reachable, Inv, Enabled, Step;
    var n := |es| - 1;
    KernelRunInv(ss, es, n);
    RunNext(ss, es, n);
    if n == 0 {
      AsksIff(ss[0], es[0].path, es[0].order, l);
    } else {
      KernelRunPrefix(ss, es);
      var ss', es' := ss[..|es|], es[..n];
      assert forall i :: 0 <= i < |ss'| ==> ss'[i] == ss[i];
      DonatesIff(ss', es', t, l);
      StepDonatesIff(ss[n], es[n], t, l);
    }
  }

  /** A donor is not above the holder of the lock it waits for. */
  lemma DonorBelowHolder(s: State, t: Tid, l: LockId)
    requires Inv(s) && Effective(s.sync) && s.sync.waiting(t) == Some(l)
    ensures s.sync.holder(l).Some? && s.sync.prio(t) <= s.sync.prio(s.sync.holder(l).value)
  {
    hide Inv, Graph, Held;
    LocksFit(s);
    GraphAt(s.sync, t, t);
    var h := s.sync.holder(l).value;
    GraphAt(s.sync, h, t);
    assert HighestAt(s.sync, h);
  }

  /** Priority inheritance, over a run from boot without donations from below: the holder of
      l is at least as urgent as every thread that has been in lock_acquire for l since some
      ss[j], if l has had a holder in every state since. */
  lemma HolderInherits(ss: seq<State>, es: seq<Event>, j: nat, t: Tid, l: LockId)
    requires IsRun(ss, es) && Boot(ss[0]) && j < |es| && AwaitsSince(ss[j..], es[j..], t, l)
    requires forall i :: 0 <= i < |es| ==> !FromBelow(ss[i], es[i])
    requires forall i :: j <= i < |ss| ==> ss[i].sync.holder(l).Some?
    ensures ss[|es|].sync.prio(t) <= ss[|es|].sync.prio(ss[|es|].sync.holder(l).value)
  {
    hide Inv, Effective, FromBelow, AwaitsSince;
    EffectiveThroughout(ss, es, |es|);
    EveryState(ss, es, |es|);
    assert ss[j..][|es[j..]|] == ss[|es|];
    assert forall i :: 0 <= i < |ss[j..]| ==> ss[j..][i] == ss[j + i];
    DonatesIff(ss[j..], es[j..], t, l);
    DonorBelowHolder(ss[|es|], t, l);
  }

  // ---------- a holder below a thread it keeps waiting ----------

  /** The threads waiting for l, in the order of its queue, donate to m, its holder, and
      there are no other donors. */
  ghost predicate Besieged(y: Sync, m: Tid, l: LockId, ts: seq<Tid>) {
    && y.holder(l) == Some(m) && y.value(OfLock(l)) == 0 && y.waiters(OfLock(l)) == ts
    && (forall t :: y.waiting(t) == if t in ts then Some(l) else None)
    && (forall t :: t in ts ==> y.pc(t) == LockDown(l, true))
    && (forall t :: t != m ==> y.prio(t) == y.init(t))
  }

  /** The main thread takes l, and a and then b, each more urgent than what has run before,
      ask for it; the main thread releases l, b takes it and lowers its own priority. Then b
      holds l with a priority below a's, which is still blocked on l, although every
      priority is the highest of the thread's own and its donors'. */
  lemma HolderBelowWaiter(s0: State, l: LockId, a: Tid, b: Tid, low: int)
    requires Boot(s0) && a !in s0.sync.threads && b !in s0.sync.threads && a != b
    requires PRI_MIN <= low <= s0.sync.init(s0.cpu.running) && s0.sync.init(s0.cpu.running) + 2 <= PRI_MAX
    ensures exists s :: Reachable(s) && Effective(s.sync) && s.sync.holder(l) == Some(b)
              && a in s.sync.waiters(OfLock(l)) && s.sync.prio(b) < s.sync.prio(a)
  {
    hide Boot, Reachable, Effective, Besieged;
    var m := s0.cpu.running;
    var p := s0.sync.init(m);
    BootFacts(s0);
    var s1 := TakesFreeLock(s0, m, l);
    NobodyAsks(s0, s1.sync, m, l);
    var s2 := OneMoreAsks(s1, m, l, [], a, p + 1);
    assert [a] + [] == [a];
    var s3 := OneMoreAsks(s2, m, l, [a], b, p + 2);
    var s4 := HandsOver(s3, m, l, a, b);
    var s := Lowers(s4, l, b, low);
  }

  lemma NobodyAsks(s0: State, y: Sync, m: Tid, l: LockId)
    requires Boot(s0) && Acquired(s0.sync, y, m, l)
    ensures Besieged(y, m, l, [])
  {
  }

  /** One more thread, above all others, is created and asks for l. */
  lemma OneMoreAsks(s0: State, m: Tid, l: LockId, ts: seq<Tid>, d: Tid, p: int) returns (s: State)
    requires Reachable(s0) && s0.cpu.running == m && s0.cpu.ready == [] && s0.cpu.idle != m && s0.sync.pc(m) == User
    requires Besieged(s0.sync, m, l, ts) && d !in s0.sync.threads && d != m && PRI_MIN <= p <= PRI_MAX
    requires s0.sync.prio(m) < p && |ts| <= 1 && m !in ts && d !in ts && forall t :: t in ts ==> s0.sync.prio(t) < p
    ensures Reachable(s) && s.cpu.running == m && s.cpu.ready == [] && s.cpu.idle == s0.cpu.idle && s.sync.pc(m) == User
    ensures Besieged(s.sync, m, l, [d] + ts) && s.sync.prio(m) == p && s.sync.prio(d) == p
    ensures s.sync.threads == s0.sync.threads + {d} && forall t :: t != d ==> s.sync.init(t) == s0.sync.init(t)
    ensures forall t :: t != m && t != d ==> s.sync.prio(t) == s0.sync.prio(t)
  {
    hide Reachable, Besieged, Asked, Insert, Enabled, Step;
    BesiegedAt(s0.sync, m, l, ts, m);
    var s1 := NewcomerRuns(s0, m, d, p);
    s := AsksHolder(s1, d, m, l, m);
    AskedIs(s1.sync, s.sync, d, m, l);
    JoinsFront(s.sync.prio, ts, d);
    BesiegedMore(s0.sync, s.sync, m, l, ts, d, p);
  }

  lemma BesiegedAt(y: Sync, m: Tid, l: LockId, ts: seq<Tid>, t: Tid)
    requires Besieged(y, m, l, ts)
    ensures y.holder(l) == Some(m) && y.value(OfLock(l)) == 0 && y.waiters(OfLock(l)) == ts
    ensures y.waiting(t) == if t in ts then Some(l) else None
  {
  }

  lemma AskedIs(y: Sync, y': Sync, d: Tid, h: Tid, k: LockId)
    requires Asked(y, y', d, h, k)
    ensures y'.threads == y.threads && y'.init == y.init && y'.value == y.value && y'.holder == y.holder
    ensures y'.prio == Raise(y.prio, [h], y.prio(d)) && y'.waiting == Put(y.waiting, d, Some(k))
    ensures y'.waiters(OfLock(k)) == Insert(y'.prio, y.waiters(OfLock(k)), d)
    ensures y'.pc(d) == LockDown(k, true) && forall t :: t != d ==> y'.pc(t) == y.pc(t)
  {
  }

  /** A thread above the one waiter, or the first to come, is first in the queue. */
  lemma JoinsFront(prio: Total<Tid, int>, ts: seq<Tid>, d: Tid)
    requires |ts| <= 1 && forall t :: t in ts ==> prio(t) < prio(d)
    ensures Insert(prio, ts, d) == [d] + ts
  {
    hide Insert, Sort;
    if ts == [] {
      InsertInNone(prio, d);
    } else {
      assert ts == [ts[0]] && ts[0] in ts;
      InsertInOne(prio, ts[0], d);
    }
  }

  lemma BesiegedMore(y: Sync, y': Sync, m: Tid, l: LockId, ts: seq<Tid>, d: Tid, p: int)
    requires Besieged(y, m, l, ts) && m != d
    requires y'.holder == y.holder && y'.value == y.value && y'.waiters(OfLock(l)) == [d] + ts
    requires forall t :: y'.waiting(t) == if t == d then Some(l) else y.waiting(t)
    requires forall t :: t != m ==> y'.prio(t) == (if t == d then p else y.prio(t))
    requires forall t :: y'.init(t) == if t == d then p else y.init(t)
    requires y'.pc(d) == LockDown(l, true) && forall t :: t != d ==> y'.pc(t) == y.pc(t)
    ensures Besieged(y', m, l, [d] + ts)
  {
  }

  /** lock_release by the main thread; b, first in the queue, takes the lock. */
  lemma HandsOver(s0: State, m: Tid, l: LockId, a: Tid, b: Tid) returns (s: State)
    requires Reachable(s0) && s0.cpu.running == m && s0.cpu.ready == [] && s0.cpu.idle != m && s0.sync.pc(m) == User
    requires Besieged(s0.sync, m, l, [b] + [a]) && m != a && m != b && a != b
    requires s0.sync.init(m) < s0.sync.prio(a) <= s0.sync.prio(b)
    ensures Reachable(s) && s.cpu.running == b && s.sync.pc(b) == User && s.sync.holder(l) == Some(b)
    ensures s.sync.waiters(OfLock(l)) == [a] && s.sync.prio(a) == s0.sync.prio(a)
    ensures forall t :: s.sync.waiting(t) == None && s.sync.donations(t) == [] && s.sync.prio(t) == s.sync.init(t)
  {
    hide Reachable;
    ReachableStep(s0, Call(Release(l, Return)));
    var s1 := Step(s0, Call(Release(l, Return)));
    var s2 := ReleasesTo(s1, m, l, Return, b, [a]);
    s := TakesLock(s2, b, l, true);
  }

  /** thread_set_priority to a lower priority by a holder without donors. */
  lemma Lowers(s0: State, l: LockId, b: Tid, low: int) returns (s: State)
    requires Reachable(s0) && s0.cpu.running == b && s0.sync.pc(b) == User
    requires forall t :: s0.sync.waiting(t) == None && s0.sync.donations(t) == [] && s0.sync.prio(t) == s0.sync.init(t)
    ensures Reachable(s) && Effective(s.sync) && s.sync.prio(b) == low
    ensures s.sync.holder == s0.sync.holder && s.sync.waiters == s0.sync.waiters
    ensures forall t :: t != b ==> s.sync.prio(t) == s0.sync.prio(t)
  {
    hide Reachable, Steal;
    ReachableStep(s0, Call(SetPriority(low)));
    var s1 := Step(s0, Call(SetPriority(low)));
    ReachableStep(s1, Run([], []));
    s := Step(s1, Run([], []));
    forall t ensures HighestAt(s.sync, t) {
    }
  }
}
