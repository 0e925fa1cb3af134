/**
 When the running thread keeps the processor, and when it does not: the preemption
 check, the yield and the end of the time slice told exactly, and thread_exit for good.
 */
module Turns {
  import opened Lists
  import opened Machine
  import opened Parking
  import opened Ownership
  import opened Dispatch
  import opened Invariant
  import opened Fifo
  import opened Guarantees
  import opened Runs
  import opened Ranking

  // ---------- the preemption check ----------

  /** t was ready before, or has been woken. */
  ghost predicate Competes(c: Cpu, c': Cpu, t: Tid) {
    t in c.ready || (c.status(t) == Blocked && c'.status(t) != Blocked)
  }

  /** A preemption check takes the processor exactly if the first thread of the ready list is above the running one. */
  lemma StealIff(c: Cpu, prio: Total<Tid, int>)
    requires Descending(prio, c.ready) && c.running !in c.ready && c.running != c.idle
    ensures Steal(c, prio).running == c.running <==> forall t :: t in c.ready ==> prio(t) <= prio(c.running)
  {
    hide YieldCpu;
    if c.ready != [] {
      var h := c.ready[0];
      assert h in c.ready;
      if prio(h) > prio(c.running) {
        YieldIs(c, prio);
        TopRuns(c, prio);
      } else {
        forall t | t in c.ready ensures prio(t) <= prio(c.running) {
          var i :| 0 <= i < |c.ready| && c.ready[i] == t;
        }
      }
    }
  }

  lemma TopRuns(c: Cpu, prio: Total<Tid, int>)
    requires c.running != c.idle && c.ready != [] && prio(c.ready[0]) > prio(c.running)
    ensures YieldCpu(c, prio).running != c.running
  {
    hide Insert, Sort;
    var h, zs := c.ready[0], Insert(prio, c.ready, c.running);
    InsertMembers(prio, c.ready, c.running);
    assert h in c.ready;
    assert h in zs;
    SortHead(prio, zs);
  }

  lemma StealKeepsBlocked(c: Cpu, prio: Total<Tid, int>, t: Tid)
    requires c.status(t) == Blocked && t !in c.ready && t != c.running && c.running != c.idle
    ensures Steal(c, prio).status(t) == Blocked
  {
    hide Insert, Sort;
    InsertMembers(prio, c.ready, c.running);
    ScheduleIs(Requeue(c, prio), prio);
  }

  /** After a sema_up or thread_set_priority the caller still runs if and only if no thread that
      was ready or that it has woken is above it. */
  lemma PreemptsIff(s: State, path: seq<Tid>, order: seq<Tid>)
    requires Inv(s) && Enabled(s, Run(path, order))
    requires UpOn(s.sync.pc(s.cpu.running)).Some? || s.sync.pc(s.cpu.running).SetPriority?
    ensures var s', r := Step(s, Run(path, order)), s.cpu.running;
            s'.cpu.running == r <==> forall t :: Competes(s.cpu, s'.cpu, t) ==> s'.sync.prio(t) <= s'.sync.prio(r)
  {
    hide Inv, Exec, Steal, Fits, Parked, Scheduled, Insert;
    var c, y, r := s.cpu, s.sync, s.cpu.running;
    var (y', a) := Exec(y, r, path, order);
    RunActs(s, path, order);
    ChecksOnly(y, r, path, order);
    var c1 := if a.chosen.Some? then Unblock(c, y'.prio, a.chosen.value) else c;
    Ready(c, y, y', a);
    StealIff(c1, y'.prio);
    forall t ensures Competes(c, Steal(c1, y'.prio), t) <==> t in c1.ready {
      if a.chosen.Some? {
        InsertMembers(y'.prio, c.ready, a.chosen.value);
        StealNotBlocked(c1, y'.prio, a.chosen.value);
      }
      if c.status(t) == Blocked && a.chosen != Some(t) {
        BlockedNotReady(c, y, t);
        StealKeepsBlocked(c1, y'.prio, t);
      }
    }
  }

  lemma ChecksOnly(y: Sync, r: Tid, path: seq<Tid>, order: seq<Tid>)
    requires UpOn(y.pc(r)).Some? || y.pc(r).SetPriority?
    ensures Exec(y, r, path, order).1.WakeUp? && y.pc(r) != IdleLoop
  {
    hide Sort;
  }

  /** The list the preemption check looks at. */
  lemma Ready(c: Cpu, y: Sync, y': Sync, a: Action)
    requires Scheduled(c, y) && Parked(y) && Fits(y, y', c.running, a) && a.WakeUp? && y.pc(c.running) != IdleLoop
    ensures var c1 := if a.chosen.Some? then Unblock(c, y'.prio, a.chosen.value) else c;
            Descending(y'.prio, c1.ready) && c1.running !in c1.ready && c1.running != c1.idle
    ensures a.chosen.Some? ==> c.status(a.chosen.value) == Blocked
  {
    RunningIsActive(c, y);
    SameOrder(y.prio, y'.prio, c.ready);
    if a.chosen.Some? {
      UnblockKeeps(c, y, y', a.chosen.value);
    }
  }

  lemma BlockedNotReady(c: Cpu, y: Sync, t: Tid)
    requires Scheduled(c, y) && c.status(t) == Blocked
    ensures t !in c.ready && t != c.running
  {
  }

  // ---------- yielding ----------

  lemma EqualIsFirst(prio: Total<Tid, int>, xs: seq<Tid>, u: Tid, r: Tid)
    requires Descending(prio, xs) && NoDup(xs) && r !in xs && u in xs && prio(u) == prio(r)
    ensures Sort(prio, Insert(prio, xs, r))[0] != r
  {
    hide Insert, Sort, Ahead;
    var i :| 0 <= i < |xs| && xs[i] == u;
    JoinsBehindIff(prio, xs, i, r);
    SortKeepsAhead(prio, Insert(prio, xs, r), u, r);
    NotFirst(Sort(prio, Insert(prio, xs, r)), u, r);
  }

  /** A thread that yields is dispatched again at once exactly if every ready thread is less urgent. */
  lemma YieldIff(c: Cpu, prio: Total<Tid, int>)
    requires Descending(prio, c.ready) && NoDup(c.ready) && c.running !in c.ready
    ensures var c' := YieldCpu(c, prio);
            if c.running == c.idle then c'.running == c.idle || c'.running in c.ready
            else (c'.running == c.running <==> forall t :: t in c.ready ==> prio(t) < prio(c.running))
                 && (c'.running != c.running ==> c.running in c'.ready)
  {
    hide Insert, Sort, Topmost;
    var r := c.running;
    if r == c.idle {
      ScheduleIs(Requeue(c, prio), prio);
    } else {
      var zs := Insert(prio, c.ready, r);
      YieldIs(c, prio);
      InsertMembers(prio, c.ready, r);
      SortHead(prio, zs);
      if u :| u in c.ready && prio(u) >= prio(r) {
        if prio(u) == prio(r) {
          EqualIsFirst(prio, c.ready, u, r);
        }
      }
    }
  }

  /** thread_yield: the caller goes on only if every ready thread is less urgent; otherwise it is ready. */
  lemma YieldTurn(s: State, path: seq<Tid>, order: seq<Tid>)
    requires Inv(s) && s.sync.pc(s.cpu.running) == Yield
    ensures var c, c' := s.cpu, Step(s, Run(path, order)).cpu;
            && (c'.running == c.running <==> forall t :: t in c.ready ==> s.sync.prio(t) < s.sync.prio(c.running))
            && (c'.running != c.running ==> c.running in c'.ready)
  {
    hide Inv, YieldCpu, Scheduled;
    InvParts(s);
    ListsFit(s.cpu, s.sync);
    YieldIff(s.cpu, s.sync.prio);
  }

  lemma ListsFit(c: Cpu, y: Sync)
    requires Scheduled(c, y)
    ensures Descending(y.prio, c.ready) && NoDup(c.ready) && c.running !in c.ready && c.running !in c.sleeping
    ensures y.pc(c.running) == IdleLoop <==> c.running == c.idle
  {
    RunningIsActive(c, y);
  }

  /** The idle thread gives the processor to any thread that is ready, and otherwise keeps it. */
  lemma IdleTurn(s: State, path: seq<Tid>, order: seq<Tid>)
    requires Inv(s) && s.cpu.running == s.cpu.idle
    ensures var c, c' := s.cpu, Step(s, Run(path, order)).cpu;
            if c.ready == [] then c'.running == c.idle else c'.running in c.ready && c'.status(c.idle) == Blocked
  {
    hide Inv, Schedule, Scheduled;
    InvParts(s);
    ListsFit(s.cpu, s.sync);
    IdleNotReady(s.cpu, s.sync);
    var c1 := s.cpu.(status := Put(s.cpu.status, s.cpu.idle, Blocked));
    ScheduleIs(c1, s.sync.prio);
    if c1.ready != [] {
      DispatchChanges(c1, s.sync.prio, s.cpu.idle);
    }
  }

  lemma IdleNotReady(c: Cpu, y: Sync)
    requires Scheduled(c, y)
    ensures c.idle !in c.ready
  {
  }

  lemma DispatchChanges(c: Cpu, prio: Total<Tid, int>, t: Tid)
    requires Schedule(c, prio).running != t
    ensures Schedule(c, prio).status(t) == c.status(t)
  {
  }

  /** A timer interrupt takes the processor from a thread other than the idle one exactly if its time slice is
      over and a thread that is ready, or whose deadline has come, is at least as urgent. */
  lemma TickTurn(s: State)
    requires Inv(s) && s.cpu.running != s.cpu.idle
    ensures var c, c' := s.cpu, Step(s, Tick).cpu;
            && (c'.running == c.running <==>
                  c.slice + 1 < TIME_SLICE || forall t :: Ripe(c, t) ==> s.sync.prio(t) < s.sync.prio(c.running))
            && (c'.running != c.running ==> c.running in c'.ready)
  {
    hide Inv, YieldCpu, Scheduled, Awake, Ripe;
    InvParts(s);
    var c, y := s.cpu, s.sync;
    AwakeLists(c, y);
    YieldIff(Awake(c.(ticks := c.ticks + 1, slice := c.slice + 1), y.prio), y.prio);
  }

  /** t is ready, or asleep with a deadline that the next tick reaches. */
  ghost predicate Ripe(c: Cpu, t: Tid) {
    t in c.ready || (t in c.sleeping && c.wake(t) <= c.ticks + 1)
  }

  /** The lists between the wake-ups of an interrupt and its yield. */
  lemma AwakeLists(c: Cpu, y: Sync)
    requires Scheduled(c, y)
    ensures var c' := Awake(c.(ticks := c.ticks + 1, slice := c.slice + 1), y.prio);
            && c'.running == c.running && c'.idle == c.idle && c'.slice == c.slice + 1
            && Descending(y.prio, c'.ready) && NoDup(c'.ready) && c'.running !in c'.ready
            && forall t :: t in c'.ready <==> Ripe(c, t)
  {
    var c1 := c.(ticks := c.ticks + 1, slice := c.slice + 1);
    TickAwakes(c, y);
    AwakeIs(c1, y);
    ListsFit(c, y);
  }

  // ---------- thread_exit ----------

  lemma ScheduleKeepsDying(c: Cpu, prio: Total<Tid, int>, t: Tid)
    requires c.status(t) == Dying && t != c.idle && t !in c.ready
    ensures Schedule(c, prio).status(t) == Dying && Schedule(c, prio).idle == c.idle
  {
    ScheduleIs(c, prio);
  }

  lemma YieldKeepsDying(c: Cpu, prio: Total<Tid, int>, t: Tid)
    requires c.status(t) == Dying && t != c.running && t != c.idle && t !in c.ready
    ensures YieldCpu(c, prio).status(t) == Dying && YieldCpu(c, prio).idle == c.idle
  {
    hide Insert, Schedule;
    InsertMembers(prio, c.ready, c.running);
    ScheduleKeepsDying(Requeue(c, prio), prio, t);
  }

  /** An action changes the status of the running thread, of the thread it wakes and of the one it dispatches. */
  lemma ActKeepsDying(c: Cpu, prio: Total<Tid, int>, a: Action, t: Tid)
    requires c.status(t) == Dying && t != c.running && t != c.idle && t !in c.ready
    requires a.WakeUp? && a.chosen.Some? ==> a.chosen.value != t
    ensures Act(c, prio, a).status(t) == Dying && Act(c, prio, a).idle == c.idle
  {
    hide Insert, Schedule, YieldCpu;
    match a {
      case Stay =>
      case BlockIt => ScheduleKeepsDying(c.(status := Put(c.status, c.running, Blocked)), prio, t);
      case YieldIt => YieldKeepsDying(c, prio, t);
      case SleepIt(d) =>
        var c1 := c.(sleeping := c.sleeping + [c.running], wake := Put(c.wake, c.running, d));
        ScheduleKeepsDying(c1.(status := Put(c.status, c.running, Blocked)), prio, t);
      case WakeUp(None) => YieldKeepsDying(c, prio, t);
      case WakeUp(Some(u)) =>
        InsertMembers(prio, c.ready, u);
        YieldKeepsDying(Unblock(c, prio, u), prio, t);
    }
  }

  lemma TickKeepsDying(c: Cpu, y: Sync, t: Tid)
    requires Scheduled(c, y) && c.status(t) == Dying && t != c.idle
    ensures TimerTick(c, y.prio).status(t) == Dying && TimerTick(c, y.prio).idle == c.idle
  {
    hide YieldCpu, Awake, Scheduled;
    var c1 := c.(ticks := c.ticks + 1, slice := c.slice + 1);
    TickAwakes(c, y);
    AwakeKeepsDying(c1, y, t);
    YieldKeepsDying(Awake(c1, y.prio), y.prio, t);
  }

  lemma AwakeKeepsDying(c: Cpu, y: Sync, t: Tid)
    requires Scheduled(c, y) && c.status(t) == Dying
    ensures var c' := Awake(c, y.prio); c'.status(t) == Dying && c'.idle == c.idle && t !in c'.ready && t != c'.running
  {
    AwakeIs(c, y);
  }

  /** A dying thread does not run and is on no list. */
  ghost predicate Gone(s: State, t: Tid) {
    && s.cpu.status(t) == Dying && t != s.cpu.running && t !in s.cpu.ready && t !in s.cpu.sleeping
    && (forall sm :: t !in s.sync.waiters(sm)) && forall l :: s.sync.holder(l) != Some(t)
  }

  lemma DyingIsNowhere(c: Cpu, y: Sync, t: Tid)
    requires Scheduled(c, y) && c.status(t) == Dying
    ensures t != c.running && t !in c.ready && t !in c.sleeping && t in y.threads
    ensures forall sm :: t !in y.waiters(sm)
  {
  }

  lemma StaysGone(s: State, e: Event, t: Tid)
    requires Inv(s) && Enabled(s, e) && Gone(s, t) && t != s.cpu.idle
    ensures Gone(Step(s, e), t) && Step(s, e).cpu.idle == s.cpu.idle
  {
    hide Inv, Exec, Act, TimerTick, Schedule, YieldCpu, Scheduled, Insert, Fits, Parked;
    var c, y, r := s.cpu, s.sync, s.cpu.running;
    InvParts(s);
    DyingIsNowhere(c, y, t);
    match e {
      case Call(op) =>
      case Run(path, order) =>
        var (y', a) := Exec(y, r, path, order);
        RunActs(s, path, order);
        WakesBlocked(c, y, y', a);
        ActKeepsDying(c, y'.prio, a, t);
        forall l ensures y'.holder(l) != Some(t) {
          if y'.holder(l) == Some(t) {
            ExecGivesNone(y, r, path, order, t, l);
          }
        }
      case Tick => TickKeepsDying(c, y, t);
      case Create(u, p) =>
        InsertMembers(AddThread(y, u, p).prio, c.ready, u);
        YieldKeepsDying(Unblock(c, AddThread(y, u, p).prio, u), AddThread(y, u, p).prio, t);
      case Exit => ScheduleKeepsDying(c.(status := Put(c.status, r, Dying)), y.prio, t);
    }
    StepKeeps(s, e);
    InvParts(Step(s, e));
    DyingIsNowhere(Step(s, e).cpu, Step(s, e).sync, t);
  }

  lemma WakesBlocked(c: Cpu, y: Sync, y': Sync, a: Action)
    requires Scheduled(c, y) && Fits(y, y', c.running, a)
    ensures a.WakeUp? && a.chosen.Some? ==> c.status(a.chosen.value) == Blocked
  {
  }

  /** thread_exit: the caller is gone. */
  lemma ExitIsGone(s: State)
    requires Inv(s) && Enabled(s, Exit)
    ensures Gone(Step(s, Exit), s.cpu.running) && s.cpu.running != s.cpu.idle && Step(s, Exit).cpu.idle == s.cpu.idle
  {
    hide Inv, Schedule, Scheduled;
    InvParts(s);
    ListsFit(s.cpu, s.sync);
    ScheduleKeepsDying(s.cpu.(status := Put(s.cpu.status, s.cpu.running, Dying)), s.sync.prio, s.cpu.running);
    StepKeeps(s, Exit);
    InvParts(Step(s, Exit));
    DyingIsNowhere(Step(s, Exit).cpu, Step(s, Exit).sync, s.cpu.running);
  }

  /** A thread that has exited is dying in every later state of the run: it never runs again, is ready, asleep,
      or parked on a semaphore, and holds no lock. */
  lemma {:induction false} ExitedIsGone(ss: seq<State>, es: seq<Event>, i: nat, j: nat)
    requires KernelRun(ss, es) && i < j <= |es| && es[i] == Exit
    ensures Gone(ss[j], ss[i].cpu.running) && ss[i].cpu.running != ss[j].cpu.idle
  {
    hide Inv, Enabled, Step, Reachable, Gone;
    KernelRunInv(ss, es, j - 1);
    RunNext(ss, es, j - 1);
    if j == i + 1 {
      ExitIsGone(ss[i]);
    } else {
      ExitedIsGone(ss, es, i, j - 1);
      StaysGone(ss[j - 1], es[j - 1], ss[i].cpu.running);
    }
  }
}
