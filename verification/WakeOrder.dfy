/**
 Who is woken first. Waiters of one semaphore stand in its queue in the order of
 the priorities they had when they parked; a donation that comes later does not
 move them, so that of two equals the later one can be woken first.
 */
module WakeOrder {
  import opened Lists
  import opened Machine
  import opened Invariant
  import opened Scenarios

  /** f stays on the semaphore throughout. */
  ghost predicate Stays(ss: seq<State>, sm: Sema, f: Tid) {
    forall s :: s in ss ==> f in s.sync.waiters(sm)
  }

  /** A run in which f is on the semaphore before g comes, and is as urgent as g when the
      semaphore is upped; and g is woken. */
  ghost predicate LaterFirst(ss: seq<State>, es: seq<Event>, sm: Sema, f: Tid, g: Tid) {
    && KernelRun(ss, es) && es != [] && Stays(ss, sm, f)
    && g !in ss[0].sync.waiters(sm)
    && var n := |es| - 1;
    && DoesUp(ss[n], es[n], sm) && ss[n].sync.prio(f) == ss[n].sync.prio(g)
    && g in ss[n].sync.waiters(sm) && g !in ss[n + 1].sync.waiters(sm)
  }

  /** f takes lock k and parks on the semaphore; g, more urgent, parks behind it in time and
      ahead of it in the queue; d, as urgent as g, asks for k and so lifts f to g's
      priority; and then the main thread ups the semaphore. */
  lemma LaterWokenFirst(s0: State, n: int, k: LockId, f: Tid, g: Tid, d: Tid)
    requires Boot(s0) && s0.sync.value(Named(n)) == 0
    requires f !in s0.sync.threads && g !in s0.sync.threads && d !in s0.sync.threads && f != g && g != d && d != f
    requires PRI_MIN <= s0.sync.init(s0.cpu.running) && s0.sync.init(s0.cpu.running) + 2 <= PRI_MAX
    ensures exists ss, es :: LaterFirst(ss, es, Named(n), f, g)
  {
    hide FirstParked;
    var s3 := FirstParks(s0, n, k, f);
    var ss, es := LaterParks(s3, s0.cpu.running, n, k, f, g, d, s0.sync.init(s0.cpu.running));
    assert LaterFirst(ss, es, Named(n), f, g);
  }

  /** The main thread m, of priority p, runs alone, and f, one above, holds k and is on the semaphore. */
  ghost predicate FirstParked(s: State, m: Tid, n: int, k: LockId, f: Tid, p: int) {
    && Reachable(s) && s.cpu.running == m && s.cpu.ready == [] && s.cpu.idle != m && s.sync.pc(m) == User
    && s.sync.waiters(Named(n)) == [f] && s.sync.value(Named(n)) == 0
    && s.sync.holder(k) == Some(f) && s.sync.value(OfLock(k)) == 0 && s.sync.waiting(f) == None
    && s.sync.prio(m) == p && s.sync.prio(f) == p + 1 && m in s.sync.threads && f in s.sync.threads
  }

  lemma FirstParks(s0: State, n: int, k: LockId, f: Tid) returns (s: State)
    requires Boot(s0) && s0.sync.value(Named(n)) == 0 && f !in s0.sync.threads
    requires PRI_MIN <= s0.sync.init(s0.cpu.running) && s0.sync.init(s0.cpu.running) + 2 <= PRI_MAX
    ensures FirstParked(s, s0.cpu.running, n, k, f, s0.sync.init(s0.cpu.running))
    ensures s.sync.threads == s0.sync.threads + {f}
  {
    hide Reachable, Enabled, Step, Insert, Sort, Boot;
    var m, p := s0.cpu.running, s0.sync.init(s0.cpu.running);
    BootFacts(s0);
    var s1 := NewcomerRuns(s0, m, f, p + 1);
    var s2 := TakesFreeLock(s1, f, k);
    s := Parks(s2, m, f, n);
    InsertInNone(s.sync.prio, f);
  }

  lemma LaterParks(s3: State, m: Tid, n: int, k: LockId, f: Tid, g: Tid, d: Tid, p: int)
      returns (ss: seq<State>, es: seq<Event>)
    requires FirstParked(s3, m, n, k, f, p) && PRI_MIN <= p && p + 2 <= PRI_MAX
    requires g !in s3.sync.threads && d !in s3.sync.threads && g != d
    ensures LaterFirst(ss, es, Named(n), f, g)
  {
    hide Reachable, KernelRun, Enabled, Step, Insert, Sort, Stays;
    ss, es := Start(s3, Named(n), f);
    var s4 := NewcomerRuns(s3, m, g, p + 2);
    ss, es := Extend(ss, es, Create(g, p + 2), Named(n), f);
    var s5 := Parks(s4, m, g, n);
    InsertInOne(s5.sync.prio, f, g);
    ss, es := ExtendTwice(ss, es, Call(PlainDown(n, false)), Run([], []), Named(n), f);
    ss, es := LifterComes(s5, m, n, k, f, g, d, p, ss, es);
  }

  /** The rest of the run: d lifts f, and m ups the semaphore. */
  lemma LifterComes(s5: State, m: Tid, n: int, k: LockId, f: Tid, g: Tid, d: Tid, p: int, ss: seq<State>,
      es: seq<Event>)
      returns (ss': seq<State>, es': seq<Event>)
    requires KernelRun(ss, es) && Stays(ss, Named(n), f) && ss[|es|] == s5 && g !in ss[0].sync.waiters(Named(n))
    requires Reachable(s5) && s5.cpu.running == m && s5.cpu.ready == [] && s5.cpu.idle != m && s5.sync.pc(m) == User
    requires s5.sync.waiters(Named(n)) == [g, f]
    requires s5.sync.holder(k) == Some(f) && s5.sync.value(OfLock(k)) == 0 && s5.sync.waiting(f) == None
    requires s5.sync.prio(m) == p && s5.sync.prio(g) == p + 2 && PRI_MIN <= p && p + 2 <= PRI_MAX
    requires d !in s5.sync.threads && d != m && d != f && d != g && m != f && g != f
    ensures LaterFirst(ss', es', Named(n), f, g)
  {
    hide Reachable, KernelRun, Enabled, Step, Insert, Sort, Stays;
    var s6 := NewcomerRuns(s5, m, d, p + 2);
    ss', es' := Extend(ss, es, Create(d, p + 2), Named(n), f);
    var s7 := AsksHolder(s6, d, f, k, m);
    ss', es' := ExtendTwice(ss', es', Call(Acquire(k)), Run([f], []), Named(n), f);
    var s8 := Ups(s7, m, n, g, f);
    ss', es' := ExtendTwice(ss', es', Call(PlainUp(n)), Run([], []), Named(n), f);
  }

  // ---------- runs, step by step ----------

  lemma Start(s: State, sm: Sema, f: Tid) returns (ss: seq<State>, es: seq<Event>)
    requires Reachable(s) && f in s.sync.waiters(sm)
    ensures KernelRun(ss, es) && ss[|es|] == s && ss[0] == s && Stays(ss, sm, f)
  {
    ss, es := [s], [];
  }

  lemma Extend(ss: seq<State>, es: seq<Event>, e: Event, sm: Sema, f: Tid) returns (ss': seq<State>, es': seq<Event>)
    requires KernelRun(ss, es) && Stays(ss, sm, f) && Enabled(ss[|es|], e) && f in Step(ss[|es|], e).sync.waiters(sm)
    ensures KernelRun(ss', es') && Stays(ss', sm, f) && ss'[0] == ss[0] && es' == es + [e]
    ensures ss'[|es|] == ss[|es|] && ss'[|es'|] == Step(ss[|es|], e)
  {
    hide Reachable, Enabled, Step;
    ss', es' := ss + [Step(ss[|es|], e)], es + [e];
  }

  lemma ExtendTwice(ss: seq<State>, es: seq<Event>, e1: Event, e2: Event, sm: Sema, f: Tid)
      returns (ss': seq<State>, es': seq<Event>)
    requires KernelRun(ss, es) && Stays(ss, sm, f) && Enabled(ss[|es|], e1)
    requires var s1 := Step(ss[|es|], e1);
             f in s1.sync.waiters(sm) && Enabled(s1, e2) && f in Step(s1, e2).sync.waiters(sm)
    ensures KernelRun(ss', es') && Stays(ss', sm, f) && ss'[0] == ss[0] && es' == es + [e1, e2]
    ensures ss'[|es'| - 1] == Step(ss[|es|], e1) && ss'[|es'|] == Step(Step(ss[|es|], e1), e2)
  {
    hide KernelRun, Stays, Enabled, Step;
    var ss1, es1 := Extend(ss, es, e1, sm, f);
    ss', es' := Extend(ss1, es1, e2, sm, f);
    assert es + [e1] + [e2] == es + [e1, e2];
  }

  /** sema_down by r of a semaphore that is down; m runs. */
  lemma Parks(s0: State, m: Tid, r: Tid, n: int) returns (s: State)
    requires Reachable(s0) && s0.cpu.running == r && s0.cpu.ready == [m] && s0.sync.pc(r) == User && r != m
    requires s0.sync.value(Named(n)) == 0
    ensures Reachable(s) && s.cpu.running == m && s.cpu.ready == [] && s.cpu.idle == s0.cpu.idle
    ensures Enabled(s0, Call(PlainDown(n, false)))
    ensures var s1 := Step(s0, Call(PlainDown(n, false)));
            s1.sync.waiters == s0.sync.waiters && Enabled(s1, Run([], [])) && s == Step(s1, Run([], []))
    ensures s.sync.waiters == Put(s0.sync.waiters, Named(n), Insert(s0.sync.prio, s0.sync.waiters(Named(n)), r))
    ensures s.sync.threads == s0.sync.threads && s.sync.prio == s0.sync.prio && s.sync.init == s0.sync.init
    ensures s.sync.waiting == s0.sync.waiting && s.sync.holder == s0.sync.holder && s.sync.value == s0.sync.value
    ensures forall t :: t != r ==> s.sync.pc(t) == s0.sync.pc(t)
  {
    hide Reachable, Block, Insert;
    ReachableStep(s0, Call(PlainDown(n, false)));
    var s1 := Step(s0, Call(PlainDown(n, false)));
    ReachableStep(s1, Run([], []));
    s := Step(s1, Run([], []));
    BlockedGivesWay(s1.cpu, s.sync.prio, m);
  }

  /** sema_up with two equally urgent waiters: the first in the queue leaves it. */
  lemma Ups(s0: State, m: Tid, n: int, g: Tid, f: Tid) returns (s: State)
    requires Reachable(s0) && s0.cpu.running == m && s0.sync.pc(m) == User && g != f
    requires s0.sync.waiters(Named(n)) == [g, f] && s0.sync.prio(g) == s0.sync.prio(f)
    ensures Enabled(s0, Call(PlainUp(n)))
    ensures var s1 := Step(s0, Call(PlainUp(n)));
            && s1.sync.waiters == s0.sync.waiters && s1.sync.prio == s0.sync.prio && DoesUp(s1, Run([], []), Named(n))
            && Enabled(s1, Run([], [])) && s == Step(s1, Run([], []))
    ensures s.sync.waiters(Named(n)) == [f]
  {
    hide Reachable, Act, Sort;
    var s1 := Step(s0, Call(PlainUp(n)));
    s := Step(s1, Run([], []));
    SortOrdered(s1.sync.prio, [g, f]);
    assert [g, f][1..] == [f];
  }
}
