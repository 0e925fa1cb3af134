/**
 donate_priority follows the locks that holders wait for. Where two threads each
 hold the lock the other asks for, its walk has no end. A reachable state in
 which the running thread is about to start such a walk.
 */
module Deadlock {
  import opened Lists
  import opened Machine
  import opened Invariant
  import opened Runs
  import opened Scenarios

  /** The main thread takes one lock; a new thread of the highest priority takes another
      and waits for the first; then the main thread asks for the second. */
  lemma CycleCanClose(s0: State, k: LockId, l: LockId, d: Tid)
    requires Boot(s0) && k != l && d !in s0.sync.threads && s0.sync.init(s0.cpu.running) < PRI_MAX
    ensures exists s, p :: Reachable(s) && ClosesCycle(s, p)
    ensures exists s :: Reachable(s) && s.sync.pc(s.cpu.running) != User && !CanGoOn(s)
  {
    hide Boot, Reachable, ClosesCycle, CanGoOn, Enabled, Step;
    var m := s0.cpu.running;
    BootFacts(s0);
    var s1 := TakesFreeLock(s0, m, k);
    var s2 := NewcomerRuns(s1, m, d, PRI_MAX);
    var s3 := TakesFreeLock(s2, d, l);
    var s4 := AsksHolder(s3, d, m, k, m);
    var s := AsksForSecond(s4, m, d, k, l);
    StuckIff(s);
  }

  lemma AsksForSecond(s0: State, m: Tid, d: Tid, k: LockId, l: LockId) returns (s: State)
    requires Reachable(s0) && s0.cpu.running == m && s0.sync.pc(m) == User && d != m
    requires s0.sync.waiting(d) == Some(k) && s0.sync.waiting(m) == None
    requires s0.sync.holder(k) == Some(m) && s0.sync.holder(l) == Some(d)
    ensures Reachable(s) && s.sync.pc(s.cpu.running) != User && ClosesCycle(s, [d, m])
  {
    hide Reachable;
    ReachableStep(s0, Call(Acquire(l)));
    s := Step(s0, Call(Acquire(l)));
    assert [d, m][1..] == [m];
    assert IsChain(s.sync.waiting, s.sync.holder, m, [m]);
  }
}
