/**
 Stretches of runs between two or three threads, from which the runs that show
 where a property fails are put together: each lemma takes a reachable state to
 the reachable state some steps on.
 */
module Scenarios {
  import opened Lists
  import opened Machine
  import opened Parking
  import opened Ownership
  import opened Donation
  import opened Priority
  import opened Dispatch
  import opened Invariant

  // ---------- short lists ----------

  /** A list in order is left alone by the sort. */
  lemma SortOrdered(key: Total<Tid, int>, xs: seq<Tid>)
    requires Descending(key, xs)
    ensures Sort(key, xs) == xs
  {
    forall k ensures SameLevel(key, Sort(key, xs), xs, k) {
      SortIsStable(key, xs, k);
    }
    SortUnique(key, Sort(key, xs), xs);
  }

  lemma InsertInNone(key: Total<Tid, int>, a: Tid)
    ensures Insert(key, [], a) == [a] && Sort(key, [a]) == [a]
  {
    SortOrdered(key, [a]);
  }

  lemma InsertInOne(key: Total<Tid, int>, a: Tid, b: Tid)
    ensures Insert(key, [a], b) == if key(a) >= key(b) then [a, b] else [b, a]
  {
    assert [a][1..] == [];
    assert Place(key, [a], b) == if key(a) >= key(b) then 1 else 0;
  }

  // ---------- the processor ----------

  /** The running thread yields to the one ready thread, which is above it. */
  lemma YieldsTo(c: Cpu, prio: Total<Tid, int>, u: Tid)
    requires c.ready == [u] && c.running != c.idle && prio(u) > prio(c.running)
    ensures var c' := YieldCpu(c, prio); c'.running == u && c'.ready == [c.running] && c'.idle == c.idle
  {
    hide Sort, Insert;
    InsertInOne(prio, u, c.running);
    SortOrdered(prio, [u, c.running]);
    assert [u, c.running][1..] == [c.running];
  }

  /** Woken while nobody else is ready, a thread above the running one runs. */
  lemma WokenRuns(c: Cpu, prio: Total<Tid, int>, u: Tid)
    requires c.ready == [] && c.running != c.idle && prio(u) > prio(c.running)
    ensures var c' := Steal(Unblock(c, prio, u), prio); c'.running == u && c'.ready == [c.running] && c'.idle == c.idle
  {
    hide YieldCpu;
    InsertInNone(prio, u);
    YieldsTo(Unblock(c, prio, u), prio, u);
  }

  /** The running thread blocks, and the one ready thread runs. */
  lemma BlockedGivesWay(c: Cpu, prio: Total<Tid, int>, m: Tid)
    requires c.ready == [m]
    ensures var c' := Block(c, prio); c'.running == m && c'.ready == [] && c'.idle == c.idle
  {
    SortOrdered(prio, [m]);
  }

  // ---------- start-up and creation ----------

  lemma BootFacts(s: State)
    requires Boot(s)
    ensures Reachable(s) && s.cpu.ready == [] && s.cpu.idle != s.cpu.running && s.sync.pc(s.cpu.running) == User
    ensures s.sync.prio == s.sync.init && s.cpu.running in s.sync.threads
    ensures forall l :: s.sync.holder(l) == None && s.sync.value(OfLock(l)) == 1
    ensures forall t :: s.sync.waiting(t) == None && s.sync.donations(t) == []
    ensures (forall sm :: s.sync.waiters(sm) == []) && forall c :: s.sync.queue(c) == []
  {
    BootIsReachable(s);
  }


  /** thread_create of a thread above its creator, which is left ready. */
  lemma NewcomerRuns(s0: State, m: Tid, d: Tid, p: int) returns (s: State)
    requires Reachable(s0) && s0.cpu.running == m && s0.cpu.ready == [] && s0.cpu.idle != m
    requires s0.sync.pc(m) == User && d !in s0.sync.threads && d != m
    requires PRI_MIN <= p <= PRI_MAX && s0.sync.prio(m) < p
    ensures Enabled(s0, Create(d, p)) && s == Step(s0, Create(d, p))
    ensures Reachable(s) && s.sync == AddThread(s0.sync, d, p)
    ensures s.cpu.running == d && s.cpu.ready == [m] && s.cpu.idle == s0.cpu.idle
  {
    hide Reachable, YieldCpu;
    ReachableStep(s0, Create(d, p));
    s := Step(s0, Create(d, p));
    InsertInNone(s.sync.prio, d);
    YieldsTo(Unblock(s0.cpu, s.sync.prio, d), s.sync.prio, d);
  }

  // ---------- locks ----------

  /** From y to y' thread r has got l, and nothing else has changed. */
  ghost predicate Acquired(y: Sync, y': Sync, r: Tid, l: LockId) {
    && y'.threads == y.threads && y'.prio == y.prio && y'.init == y.init && y'.donations == y.donations
    && y'.waiters == y.waiters && y'.queue == y.queue
    && y'.holder == Put(y.holder, l, Some(r)) && y'.waiting == Put(y.waiting, r, None)
    && y'.value == Put<Sema, nat>(y.value, OfLock(l), 0)
    && y'.pc(r) == User && forall t :: t != r ==> y'.pc(t) == y.pc(t)
  }

  /** The rest of lock_acquire for a thread that finds the semaphore up. */
  lemma TakesLock(s0: State, r: Tid, l: LockId, parked: bool) returns (s: State)
    requires Reachable(s0) && s0.cpu.running == r && s0.sync.pc(r) == LockDown(l, parked)
    requires s0.sync.value(OfLock(l)) == 1
    ensures Reachable(s) && s.cpu == s0.cpu && Acquired(s0.sync, s.sync, r, l)
  {
    hide Reachable;
    ReachableStep(s0, Run([], []));
    var s1 := Step(s0, Run([], []));
    ReachableStep(s1, Run([], []));
    s := Step(s1, Run([], []));
  }

  /** lock_acquire of a lock that is free. */
  lemma TakesFreeLock(s0: State, r: Tid, l: LockId) returns (s: State)
    requires Reachable(s0) && s0.cpu.running == r && s0.sync.pc(r) == User
    requires s0.sync.holder(l) == None && s0.sync.value(OfLock(l)) == 1
    ensures Reachable(s) && s.cpu == s0.cpu && Acquired(s0.sync, s.sync, r, l)
  {
    hide Reachable;
    ReachableStep(s0, Call(Acquire(l)));
    var s1 := Step(s0, Call(Acquire(l)));
    ReachableStep(s1, Run([], []));
    var s2 := Step(s1, Run([], []));
    s := TakesLock(s2, r, l, false);
  }

  /** From y to y' thread d has begun to wait for lock k of h, a thread that waits for none. */
  ghost predicate Asked(y: Sync, y': Sync, d: Tid, h: Tid, k: LockId) {
    && y'.threads == y.threads && y'.init == y.init && y'.value == y.value && y'.holder == y.holder
    && y'.queue == y.queue
    && y'.prio == Raise(y.prio, [h], y.prio(d)) && y'.waiting == Put(y.waiting, d, Some(k))
    && y'.donations == Put(y.donations, h, Insert(y.prio, y.donations(h), d))
    && y'.waiters == Put(y.waiters, OfLock(k), Insert(y'.prio, y.waiters(OfLock(k)), d))
    && y'.pc(d) == LockDown(k, true) && forall t :: t != d ==> y'.pc(t) == y.pc(t)
  }

  /** lock_acquire of a lock that is held: d donates and blocks, and m runs. */
  lemma AsksHolder(s0: State, d: Tid, h: Tid, k: LockId, m: Tid) returns (s: State)
    requires Reachable(s0) && s0.cpu.running == d && s0.cpu.ready == [m] && s0.sync.pc(d) == User && d != h
    requires s0.sync.holder(k) == Some(h) && s0.sync.waiting(h) == None && s0.sync.value(OfLock(k)) == 0
    ensures Reachable(s) && s.cpu.running == m && s.cpu.ready == [] && s.cpu.idle == s0.cpu.idle
    ensures Asked(s0.sync, s.sync, d, h, k)
    ensures Enabled(s0, Call(Acquire(k)))
    ensures var s1 := Step(s0, Call(Acquire(k)));
            s1.sync.waiters == s0.sync.waiters && Enabled(s1, Run([h], [])) && s == Step(s1, Run([h], []))
  {
    hide Reachable, Insert, Block;
    ReachableStep(s0, Call(Acquire(k)));
    var s1 := Step(s0, Call(Acquire(k)));
    assert IsChain(Put(s1.sync.waiting, d, Some(k)), s1.sync.holder, h, [h]);
    ReachableStep(s1, Run([h], []));
    s := Step(s1, Run([h], []));
    BlockedGivesWay(s1.cpu, s.sync.prio, m);
  }

  /** From y to y' thread r has released l, for which all waiting threads waited; the
      first in its queue is woken and rest are left. */
  ghost predicate Released(y: Sync, y': Sync, r: Tid, l: LockId, next: Then, rest: seq<Tid>) {
    && y'.threads == y.threads && y'.init == y.init && y'.queue == y.queue
    && y'.holder == Put(y.holder, l, None) && y'.value == Put<Sema, nat>(y.value, OfLock(l), 1)
    && y'.waiters == Put(y.waiters, OfLock(l), rest)
    && (forall t :: y'.waiting(t) == None && y'.donations(t) == [])
    && (forall t :: y'.prio(t) == if t == r then y.init(r) else y.prio(t))
    && y'.pc(r) == AfterUp(ReleaseUp(l, next)) && forall t :: t != r ==> y'.pc(t) == y.pc(t)
  }

  /** lock_release with waiters: the first of them is above the releasing thread, and runs. */
  lemma ReleasesTo(s0: State, r: Tid, l: LockId, next: Then, u: Tid, rest: seq<Tid>) returns (s: State)
    requires Reachable(s0) && s0.cpu.running == r && s0.cpu.ready == [] && s0.cpu.idle != r
    requires s0.sync.pc(r) == Release(l, next) && s0.sync.value(OfLock(l)) == 0
    requires s0.sync.waiters(OfLock(l)) == [u] + rest && r !in [u] + rest
    requires forall t :: s0.sync.waiting(t).Some? ==> s0.sync.waiting(t) == Some(l)
    requires Descending(s0.sync.prio, [u] + rest) && s0.sync.init(r) < s0.sync.prio(u)
    ensures Reachable(s) && s.cpu.running == u && s.cpu.ready == [r] && s.cpu.idle == s0.cpu.idle
    ensures Released(s0.sync, s.sync, r, l, next, rest)
  {
    hide Reachable, Unhold, Sort, Steal, Unblock, Descending;
    ReachableStep(s0, Run([], []));
    var s1 := Step(s0, Run([], []));
    GivesUp(s0, r, l, next);
    SameOrder(s0.sync.prio, s1.sync.prio, [u] + rest);
    SortOrdered(s1.sync.prio, [u] + rest);
    assert ([u] + rest)[1..] == rest;
    ReachableStep(s1, Run([], []));
    s := Step(s1, Run([], []));
    WokenRuns(s1.cpu, s1.sync.prio, u);
  }

  /** The step of lock_release before its sema_up. */
  lemma GivesUp(s0: State, r: Tid, l: LockId, next: Then)
    requires Reachable(s0) && s0.cpu.running == r && s0.sync.pc(r) == Release(l, next)
    requires forall t :: s0.sync.waiting(t).Some? ==> s0.sync.waiting(t) == Some(l)
    ensures var s := Step(s0, Run([], []));
            && s.cpu == s0.cpu && s.sync == Unhold(s0.sync, r, l, next)
            && s.sync.pc == Put(s0.sync.pc, r, ReleaseUp(l, next))
            && s.sync.threads == s0.sync.threads && s.sync.init == s0.sync.init && s.sync.queue == s0.sync.queue
            && s.sync.value == s0.sync.value && s.sync.waiters == s0.sync.waiters
            && s.sync.holder == Put(s0.sync.holder, l, None)
            && (forall t :: s.sync.waiting(t) == None && s.sync.donations(t) == [])
            && (forall t :: s.sync.prio(t) == if t == r then s0.sync.init(r) else s0.sync.prio(t))
  {
    hide Reachable, Inv, Graph, Held, Unhold, RemoveLock, Reset;
    var y, s := s0.sync, Step(s0, Run([], []));
    ReachableInv(s0);
    LocksFit(s0);
    HeldAt(y, r);
    UnholdParts(y, r, l, next);
    UnholdKeepsGraph(y, r, l, next);
    forall t ensures s.sync.waiting(t) == None {
      UnholdFrees(y, r, l, next, t);
    }
    forall t ensures s.sync.donations(t) == [] {
      NoDonors(s.sync, t);
    }
    var y1 := y.(holder := Put(y.holder, l, None), pc := Put(y.pc, r, ReleaseUp(l, next)));
    RemoveLockFrees(y, r, l, r);
    GraphAt(y, r, r);
    NoSelfDonor(y, y1, r, l);
    ResetIsHighest(RemoveLock(y1, r, l), r);
    RemoveKeeps(y1, r, l);
  }

  lemma LocksFit(s: State)
    requires Inv(s)
    ensures Graph(s.sync) && Held(s.sync) && s.sync.waiting(s.cpu.running) == None
  {
    RunningIsActive(s.cpu, s.sync);
    ActiveWaitsForNothing(s.sync, s.cpu.running);
  }

  lemma NoDonors(y: Sync, h: Tid)
    requires Graph(y) && forall t :: y.waiting(t) == None
    ensures y.donations(h) == []
  {
    forall t ensures t !in y.donations(h) {
      GraphAt(y, h, t);
    }
    EmptyWithoutMembers(y.donations(h));
  }

  lemma NoSelfDonor(y: Sync, y1: Sync, r: Tid, l: LockId)
    requires r !in y.donations(r) && y1.donations == y.donations && y1.waiting == y.waiting
    ensures r !in RemoveLock(y1, r, l).donations(r)
  {
    FilterMembers(Kept(y1, r, l), y.donations(r));
  }

  lemma RemoveKeeps(y: Sync, r: Tid, l: LockId)
    ensures var y' := RemoveLock(y, r, l); y'.prio == y.prio && y'.init == y.init
  {
  }

  lemma UnholdParts(y: Sync, r: Tid, l: LockId, next: Then)
    ensures var y' := Unhold(y, r, l, next);
            var y1 := y.(holder := Put(y.holder, l, None), pc := Put(y.pc, r, ReleaseUp(l, next)));
            && y' == Reset(RemoveLock(y1, r, l), r)
            && y'.pc == y1.pc && y'.threads == y.threads && y'.init == y.init && y'.queue == y.queue
            && y'.value == y.value && y'.waiters == y.waiters && y'.holder == y1.holder
  {
    hide Filter, Sort;
  }
}
