/**
 Whom cond_signal picks. It sorts the waiters by the thread at the front of each
 one's semaphore, which is the waiter only once that has reached its sema_down.
 */
module SignalOrder {
  import opened Lists
  import opened Machine
  import opened Donation
  import opened Invariant
  import opened Scenarios

  /** With this outcome of the sort, cond_signal picks a most urgent waiter. */
  ghost predicate PicksTopmost(s: State, c: Cond, order: seq<Tid>) {
    var pc := Step(s, Run([], order)).sync.pc(s.cpu.running);
    && pc.SignalUp? && pc.chosen in s.sync.queue(c)
    && forall u :: u in s.sync.queue(c) ==> s.sync.prio(u) <= s.sync.prio(pc.chosen)
  }

  ghost predicate OneLevel(y: Sync, ts: seq<Tid>) {
    forall t, u :: t in ts && u in ts ==> y.prio(t) == y.prio(u)
  }

  /** cond_signal is sure to pick a most urgent waiter if and only if all waiters are on
      their own semaphores, or have the same priority anyway. */
  lemma SignalTopmostIff(s: State, c: Cond, more: bool)
    requires s.sync.pc(s.cpu.running) == Signal(c, more) && s.sync.queue(c) != []
    ensures (forall order :: Enabled(s, Run([], order)) ==> PicksTopmost(s, c, order)) <==>
            Queued(s.sync, s.sync.queue(c)) || OneLevel(s.sync, s.sync.queue(c))
  {
    hide Queued, OneLevel, Act, Sort;
    var y, q := s.sync, s.sync.queue(c);
    if Queued(y, q) || OneLevel(y, q) {
      forall order | Enabled(s, Run([], order)) ensures PicksTopmost(s, c, order) {
        SameMembers(order, q);
        PicksFirst(s, c, more, order);
        if Queued(y, q) {
          SortHead(y.prio, q);
        } else {
          OnLevel(y, q, order[0]);
        }
      }
    } else {
      var u, v := TwoLevels(y, q);
      var order := ToFront(q, u);
      assert Enabled(s, Run([], order));
      PicksFirst(s, c, more, order);
      assert !PicksTopmost(s, c, order);
    }
  }

  lemma PicksFirst(s: State, c: Cond, more: bool, order: seq<Tid>)
    requires s.sync.pc(s.cpu.running) == Signal(c, more) && s.sync.queue(c) != []
    requires multiset(order) == multiset(s.sync.queue(c))
    ensures order != [] && Step(s, Run([], order)).sync.pc(s.cpu.running) == SignalUp(c, order[0], more)
    ensures order[0] in s.sync.queue(c)
  {
    assert s.sync.queue(c)[0] in multiset(s.sync.queue(c));
    SameMembers(order, s.sync.queue(c));
    var t := order[0];
    assert t in order;
  }

  lemma OnLevel(y: Sync, ts: seq<Tid>, t: Tid)
    requires OneLevel(y, ts) && t in ts
    ensures forall u :: u in ts ==> y.prio(u) <= y.prio(t)
  {
  }

  lemma TwoLevels(y: Sync, ts: seq<Tid>) returns (u: Tid, v: Tid)
    requires !OneLevel(y, ts)
    ensures u in ts && v in ts && y.prio(u) < y.prio(v)
  {
    u, v :| u in ts && v in ts && y.prio(u) != y.prio(v);
    if y.prio(u) > y.prio(v) {
      u, v := v, u;
    }
  }

  /** ts with u moved to the front. */
  lemma ToFront(ts: seq<Tid>, u: Tid) returns (order: seq<Tid>)
    requires u in ts
    ensures multiset(order) == multiset(ts) && order != [] && order[0] == u
  {
    var i :| 0 <= i < |ts| && ts[i] == u;
    order := [u] + ts[..i] + ts[i + 1..];
    assert ts == ts[..i] + [ts[i]] + ts[i + 1..];
  }

  // ---------- a less urgent waiter is signalled ----------

  /** w, more urgent than the main thread m, is in cond_wait. Then m calls cond_wait, with h
      waiting for the lock, and is preempted by h between its lock_release and its
      sema_down; the sort of h's cond_signal may now put m first. */
  lemma LessUrgentSignalled(s0: State, c: Cond, w: Tid, h: Tid)
    requires Boot(s0) && w !in s0.sync.threads && h !in s0.sync.threads && w != h
    requires PRI_MIN <= s0.sync.init(s0.cpu.running) && s0.sync.init(s0.cpu.running) + 2 <= PRI_MAX
    ensures exists s, order :: Reachable(s) && s.sync.pc(s.cpu.running) == Signal(c, false) && s.sync.queue(c) != []
              && Enabled(s, Run([], order)) && !PicksTopmost(s, c, order)
  {
    hide OneWaits, BothWait, PicksTopmost, Enabled, Queued, OneLevel;
    var m, p := s0.cpu.running, s0.sync.init(s0.cpu.running);
    var s1 := FirstWaits(s0, c, w);
    var s2 := SecondWaits(s1, m, w, h, c, p);
    var s := Signals(s2, m, w, h, c, p);
    SignalTopmostIff(s, c, false);
    var order :| Enabled(s, Run([], order)) && !PicksTopmost(s, c, order);
  }

  /** w is in cond_wait on c, one above m, which runs alone. */
  ghost predicate OneWaits(s: State, m: Tid, w: Tid, c: Cond, p: int) {
    && Reachable(s) && s.cpu.running == m && s.cpu.ready == [] && s.cpu.idle != m && s.sync.pc(m) == User
    && Alone(s.sync, c.lock) && s.sync.queue(c) == [w] && s.sync.prio(m) == p && s.sync.prio(w) == p + 1
  }

  /** m is in cond_wait on c too, but not on its semaphore; h runs and is about to take the lock. */
  ghost predicate BothWait(s: State, m: Tid, w: Tid, h: Tid, c: Cond, p: int) {
    && Reachable(s) && s.cpu.running == h && s.sync.pc(h) == LockDown(c.lock, true)
    && s.sync.value(OfLock(c.lock)) == 1 && s.sync.queue(c) == [m, w] && s.sync.waiters(OfWaiter(m)) == []
    && s.sync.prio(m) == p && s.sync.prio(w) == p + 1
  }

  lemma FirstWaits(s0: State, c: Cond, w: Tid) returns (s: State)
    requires Boot(s0) && w !in s0.sync.threads
    requires PRI_MIN <= s0.sync.init(s0.cpu.running) && s0.sync.init(s0.cpu.running) + 2 <= PRI_MAX
    ensures OneWaits(s, s0.cpu.running, w, c, s0.sync.init(s0.cpu.running)) && w != s0.cpu.running
    ensures s.sync.threads == s0.sync.threads + {w}
  {
    hide Boot, Reachable, Alone, Enabled, Step;
    var m, p := s0.cpu.running, s0.sync.init(s0.cpu.running);
    BootFacts(s0);
    AloneFrom(s0.sync, c.lock);
    var s1 := NewcomerRuns(s0, m, w, p + 1);
    AloneAdds(s0.sync, w, p + 1, c.lock);
    s := WaitsOn(s1, m, w, c);
  }

  lemma SecondWaits(s0: State, m: Tid, w: Tid, h: Tid, c: Cond, p: int) returns (s: State)
    requires OneWaits(s0, m, w, c, p) && h !in s0.sync.threads && h != m && h != w && w != m
    requires PRI_MIN <= p && p + 2 <= PRI_MAX
    ensures BothWait(s, m, w, h, c, p)
  {
    hide Reachable, Alone, AskedFor;
    AloneIs(s0.sync, c.lock);
    var s1 := HoldsAndCreates(s0, m, h, c.lock, p + 2);
    var s2 := IsAsked(s1, m, h, c.lock);
    s := Preempted(s2, m, w, h, c);
  }

  /** l is free, nobody waits for a lock or on its semaphore, and no donations are out. */
  ghost predicate Alone(y: Sync, l: LockId) {
    && y.holder(l) == None && y.value(OfLock(l)) == 1 && y.waiters(OfLock(l)) == []
    && forall t :: y.waiting(t) == None && y.donations(t) == [] && y.prio(t) == y.init(t)
  }

  lemma AloneAdds(y: Sync, t: Tid, p: int, l: LockId)
    requires Alone(y, l)
    ensures Alone(AddThread(y, t, p), l)
  {
  }

  /** The whole of cond_wait by w, whose lock nobody waits for, up to its thread_block; m runs. */
  lemma WaitsOn(s0: State, m: Tid, w: Tid, c: Cond) returns (s: State)
    requires Reachable(s0) && s0.cpu.running == w && s0.cpu.ready == [m] && w != m && Alone(s0.sync, c.lock)
    requires s0.sync.pc(w) == User && s0.sync.queue(c) == [] && s0.sync.prio(m) < s0.sync.prio(w)
    ensures Reachable(s) && s.cpu.running == m && s.cpu.ready == [] && s.cpu.idle == s0.cpu.idle
    ensures Alone(s.sync, c.lock) && s.sync.queue(c) == [w] && s.sync.pc(m) == s0.sync.pc(m)
    ensures s.sync.threads == s0.sync.threads && s.sync.init == s0.sync.init
    ensures forall t :: s.sync.prio(t) == s0.sync.prio(t)
  {
    hide Reachable, Alone;
    AloneIs(s0.sync, c.lock);
    var s1 := TakesFreeLock(s0, w, c.lock);
    var s2 := StartsWait(s1, w, c, [], [w]);
    GivesUp(s2, w, c.lock, WaitOn(c));
    var s3 := Step(s2, Run([], []));
    ReachableStep(s2, Run([], []));
    s := UpsAndParks(s3, m, w, c);
    AloneFrom(s.sync, c.lock);
  }

  lemma AloneIs(y: Sync, l: LockId)
    requires Alone(y, l)
    ensures y.holder(l) == None && y.value(OfLock(l)) == 1 && y.waiters(OfLock(l)) == []
    ensures forall t :: y.waiting(t) == None && y.donations(t) == [] && y.prio(t) == y.init(t)
  {
  }

  lemma AloneFrom(y: Sync, l: LockId)
    requires y.holder(l) == None && y.value(OfLock(l)) == 1 && y.waiters(OfLock(l)) == []
    requires forall t :: y.waiting(t) == None && y.donations(t) == [] && y.prio(t) == y.init(t)
    ensures Alone(y, l)
  {
  }

  /** cond_wait up to its lock_release. */
  lemma StartsWait(s0: State, r: Tid, c: Cond, others: seq<Tid>, order: seq<Tid>) returns (s: State)
    requires Reachable(s0) && s0.cpu.running == r && s0.sync.pc(r) == User && s0.sync.holder(c.lock) == Some(r)
    requires s0.sync.queue(c) == others && order == [r] + others
    ensures Reachable(s) && s.cpu == s0.cpu && s.sync.pc(r) == Release(c.lock, WaitOn(c))
    ensures forall t :: t != r ==> s.sync.pc(t) == s0.sync.pc(t)
    ensures s.sync.threads == s0.sync.threads && s.sync.prio == s0.sync.prio && s.sync.init == s0.sync.init
    ensures s.sync.waiting == s0.sync.waiting && s.sync.donations == s0.sync.donations
    ensures s.sync.holder == s0.sync.holder && s.sync.queue == Put(s0.sync.queue, c, order)
    ensures s.sync.value == Put<Sema, nat>(s0.sync.value, OfWaiter(r), 0)
    ensures s.sync.waiters == Put(s0.sync.waiters, OfWaiter(r), [])
  {
    hide Reachable;
    ReachableStep(s0, Call(CondWait(c)));
    var s1 := Step(s0, Call(CondWait(c)));
    assert order == others[..0] + [r] + others[0..];
    ReachableStep(s1, Run([], order));
    s := Step(s1, Run([], order));
  }

  /** The sema_up of the lock_release in cond_wait, with nobody waiting, and the sema_down. */
  lemma UpsAndParks(s0: State, m: Tid, w: Tid, c: Cond) returns (s: State)
    requires Reachable(s0) && s0.cpu.running == w && s0.cpu.ready == [m] && w != m
    requires s0.sync.pc(w) == ReleaseUp(c.lock, WaitOn(c)) && s0.sync.waiters(OfLock(c.lock)) == []
    requires s0.sync.value(OfWaiter(w)) == 0 && s0.sync.value(OfLock(c.lock)) == 0
    requires s0.sync.prio(m) < s0.sync.prio(w)
    ensures Reachable(s) && s.cpu.running == m && s.cpu.ready == [] && s.cpu.idle == s0.cpu.idle
    ensures s.sync.pc(m) == s0.sync.pc(m) && s.sync.threads == s0.sync.threads && s.sync.holder == s0.sync.holder
    ensures s.sync.prio == s0.sync.prio && s.sync.init == s0.sync.init && s.sync.queue == s0.sync.queue
    ensures s.sync.waiting == s0.sync.waiting && s.sync.donations == s0.sync.donations
    ensures s.sync.value(OfLock(c.lock)) == 1 && s.sync.waiters(OfLock(c.lock)) == []
  {
    hide Reachable, Block, Insert, Sort;
    ReachableStep(s0, Run([], []));
    var s1 := Step(s0, Run([], []));
    ReachableStep(s1, Run([], []));
    s := Step(s1, Run([], []));
    BlockedGivesWay(s1.cpu, s.sync.prio, m);
  }

  /** m holds l, h alone waits for it, and no other thread is ready. */
  ghost predicate AskedFor(s: State, m: Tid, h: Tid, l: LockId) {
    && s.cpu.running == m && s.cpu.ready == [] && s.cpu.idle != m && s.sync.pc(m) == User
    && s.sync.holder(l) == Some(m) && s.sync.value(OfLock(l)) == 0 && s.sync.waiters(OfLock(l)) == [h]
    && s.sync.pc(h) == LockDown(l, true) && forall t :: t != h ==> s.sync.waiting(t) == None
  }

  /** m takes the lock and h is created. */
  lemma HoldsAndCreates(s0: State, m: Tid, h: Tid, l: LockId, p: int) returns (s: State)
    requires Reachable(s0) && s0.cpu.running == m && s0.cpu.ready == [] && s0.cpu.idle != m && s0.sync.pc(m) == User
    requires Alone(s0.sync, l) && h !in s0.sync.threads && h != m
    requires s0.sync.prio(m) < p && PRI_MIN <= p <= PRI_MAX
    ensures Reachable(s) && s.cpu.running == h && s.cpu.ready == [m] && s.cpu.idle == s0.cpu.idle
    ensures s.sync.pc(h) == User && s.sync.pc(m) == User
    ensures s.sync.holder(l) == Some(m) && s.sync.value(OfLock(l)) == 0 && s.sync.waiters(OfLock(l)) == []
    ensures s.sync.queue == s0.sync.queue && s.sync.init(m) == s0.sync.init(m) && s.sync.prio(h) == p
    ensures (forall t :: s.sync.waiting(t) == None) && forall t :: t != h ==> s.sync.prio(t) == s0.sync.prio(t)
  {
    hide Reachable, Alone, Enabled, Step;
    AloneIs(s0.sync, l);
    var s1 := TakesFreeLock(s0, m, l);
    s := NewcomerRuns(s1, m, h, p);
  }

  /** h asks for the lock m holds. */
  lemma IsAsked(s0: State, m: Tid, h: Tid, l: LockId) returns (s: State)
    requires Reachable(s0) && s0.cpu.running == h && s0.cpu.ready == [m] && s0.cpu.idle != m && h != m
    requires s0.sync.pc(h) == User && s0.sync.pc(m) == User
    requires s0.sync.holder(l) == Some(m) && s0.sync.value(OfLock(l)) == 0 && s0.sync.waiters(OfLock(l)) == []
    requires forall t :: s0.sync.waiting(t) == None
    ensures Reachable(s) && AskedFor(s, m, h, l) && s.sync.waiting(h) == Some(l)
    ensures s.sync.queue == s0.sync.queue && s.sync.init(m) == s0.sync.init(m)
    ensures forall t :: t != m ==> s.sync.prio(t) == s0.sync.prio(t)
  {
    hide Reachable, Insert, Sort, Enabled, Step;
    s := AsksHolder(s0, h, m, l, m);
    InsertInNone(s.sync.prio, h);
  }

  /** m, asked for its lock by h, calls cond_wait, and h runs before m is on its semaphore. */
  lemma Preempted(s0: State, m: Tid, w: Tid, h: Tid, c: Cond) returns (s: State)
    requires Reachable(s0) && AskedFor(s0, m, h, c.lock) && s0.sync.waiting(h) == Some(c.lock)
    requires s0.sync.queue(c) == [w] && s0.sync.init(m) < s0.sync.prio(h) && h != m && w != m
    ensures Reachable(s) && s.cpu.running == h && s.sync.pc(h) == LockDown(c.lock, true)
    ensures s.sync.value(OfLock(c.lock)) == 1 && s.sync.holder(c.lock) == None
    ensures s.sync.queue(c) == [m, w] && s.sync.waiters(OfWaiter(m)) == []
    ensures s.sync.prio(m) == s0.sync.init(m) && s.sync.prio(w) == s0.sync.prio(w)
  {
    hide Reachable, Insert, Sort;
    assert [m] + [w] == [m, w] && [h] + [] == [h];
    var s1 := StartsWait(s0, m, c, [w], [m, w]);
    s := ReleasesTo(s1, m, c.lock, WaitOn(c), h, []);
  }

  /** h takes the lock and calls cond_signal. */
  lemma Signals(s0: State, m: Tid, w: Tid, h: Tid, c: Cond, p: int) returns (s: State)
    requires BothWait(s0, m, w, h, c, p)
    ensures Reachable(s) && s.cpu.running == h && s.sync.pc(h) == Signal(c, false) && s.sync.queue(c) != []
    ensures !Queued(s.sync, s.sync.queue(c)) && !OneLevel(s.sync, s.sync.queue(c))
  {
    hide Reachable;
    var s1 := TakesLock(s0, h, c.lock, true);
    ReachableStep(s1, Call(Signal(c, false)));
    s := Step(s1, Call(Signal(c, false)));
    var q := s.sync.queue(c);
    assert q[0] == m && q[1] == w;
    assert m in q && w in q;
  }
}
