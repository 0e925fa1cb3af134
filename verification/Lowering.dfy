/**
 donate_priority stores the donor's priority without comparing, so a donation
 from below lowers the threads on its chain. A reachable state in which it has.
 */
module Lowering {
  import opened Lists
  import opened Machine
  import opened Donation
  import opened Priority
  import opened Invariant
  import opened Scenarios

  /** The main thread takes a lock and sleeps; a new thread of priority PRI_MIN
      then asks for the lock, and the main thread is left below its own priority. */
  lemma HolderCanBeLowered(s0: State, l: LockId, d: Tid)
    requires Boot(s0) && d !in s0.sync.threads && s0.sync.init(s0.cpu.running) > PRI_MIN
    ensures exists s :: Reachable(s) && s.sync.prio(s0.cpu.running) < s.sync.init(s0.cpu.running) && !Effective(s.sync)
  {
    BootIsReachable(s0);
    var m := s0.cpu.running;
    var s1 := TakesFreeLock(s0, m, l);
    var s2 := CreatesThread(s1, m, l, d);
    var s3 := Sleeps(s2, m, l, d);
    var s4 := AsksFromBelow(s3, m, l, d);
  }

  /** The main thread holds l and nobody waits for a lock. */
  ghost predicate Holding(s: State, m: Tid, l: LockId) {
    && Reachable(s) && s.sync.holder(l) == Some(m) && s.sync.value(OfLock(l)) == 0
    && (forall t :: s.sync.waiting(t) == None)
    && s.sync.init(m) > PRI_MIN
  }

  lemma CreatesThread(s0: State, m: Tid, l: LockId, d: Tid) returns (s: State)
    requires Holding(s0, m, l) && s0.cpu.running == m && s0.cpu.ready == [] && s0.cpu.idle != d
    requires s0.sync.pc(m) == User && d !in s0.sync.threads && s0.sync.prio(m) > PRI_MIN && d != m
    ensures Holding(s, m, l) && s.cpu.running == m && s.cpu.ready == [d]
    ensures s.sync.pc(m) == User && s.sync.pc(d) == User && s.sync.prio(d) == PRI_MIN
  {
    hide Reachable;
    ReachableStep(s0, Create(d, PRI_MIN));
    s := Step(s0, Create(d, PRI_MIN));
  }

  lemma Sleeps(s0: State, m: Tid, l: LockId, d: Tid) returns (s: State)
    requires Holding(s0, m, l) && s0.cpu.running == m && s0.cpu.ready == [d] && d != m
    requires s0.sync.pc(m) == User && s0.sync.pc(d) == User && s0.sync.prio(d) == PRI_MIN
    ensures Holding(s, m, l) && s.cpu.running == d && s.sync.pc(d) == User && s.sync.prio(d) == PRI_MIN
  {
    hide Reachable;
    ReachableStep(s0, Call(Sleep(100)));
    var s1 := Step(s0, Call(Sleep(100)));
    InsertInNone(s1.sync.prio, d);
    ReachableStep(s1, Run([], []));
    s := Step(s1, Run([], []));
  }

  lemma AsksFromBelow(s0: State, m: Tid, l: LockId, d: Tid) returns (s: State)
    requires Holding(s0, m, l) && s0.cpu.running == d && d != m
    requires s0.sync.pc(d) == User && s0.sync.prio(d) == PRI_MIN
    ensures Reachable(s) && s.sync.prio(m) == PRI_MIN < s.sync.init(m) && !Effective(s.sync)
  {
    hide Reachable;
    ReachableStep(s0, Call(Acquire(l)));
    var s1 := Step(s0, Call(Acquire(l)));
    ReachableStep(s1, Run([m], []));
    s := Step(s1, Run([m], []));
    assert !HighestAt(s.sync, m);
  }
}
