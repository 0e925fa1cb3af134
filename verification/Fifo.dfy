/** First come, first served among equals: what holds of the ready list over whole
    runs, and what holds of a semaphore's queue. */
module Fifo {
  import opened Lists
  import opened Machine
  import opened Parking
  import opened Dispatch
  import opened Invariant
  import Loops

  /** xs holds a and b, each once, a ahead of b. */
  ghost predicate Ahead(xs: seq<Tid>, a: Tid, b: Tid) {
    Filter({a, b}, xs) == [a, b]
  }

  /** a is in xs, ahead of b if b is there too. */
  ghost predicate InOrder(xs: seq<Tid>, a: Tid, b: Tid) {
    a in xs && (b in xs ==> Ahead(xs, a, b))
  }

  // ---------- lists ----------

  lemma AheadMembers(xs: seq<Tid>, a: Tid, b: Tid)
    requires Ahead(xs, a, b)
    ensures a in xs && b in xs
  {
    FilterMembers({a, b}, xs);
    assert a in [a, b] && b in [a, b];
  }

  /** Among threads of one level only the level matters. */
  lemma {:induction false} FilterLevel(key: Total<Tid, int>, xs: seq<Tid>, a: Tid, b: Tid)
    requires key(a) == key(b)
    ensures Filter({a, b}, Level(key, xs, key(a))) == Filter({a, b}, xs)
  {
    if xs != [] {
      var n := |xs| - 1;
      FilterLevel(key, xs[..n], a, b);
      assert xs == xs[..n] + [xs[n]];
      Loops.FilterConcat({a, b}, xs[..n], [xs[n]]);
      Loops.FilterConcat({a, b}, Level(key, xs[..n], key(a)), [xs[n]]);
      assert [xs[n]][1..] == [];
      LevelLast(key, xs, key(a));
    }
  }

  lemma SortKeepsAhead(key: Total<Tid, int>, xs: seq<Tid>, a: Tid, b: Tid)
    requires key(a) == key(b)
    ensures Ahead(Sort(key, xs), a, b) <==> Ahead(xs, a, b)
  {
    FilterLevel(key, xs, a, b);
    FilterLevel(key, Sort(key, xs), a, b);
    SortIsStable(key, xs, key(a));
  }

  lemma FilterMiddle(xs: seq<Tid>, c: Tid, ys: seq<Tid>, a: Tid, b: Tid)
    requires c != a && c != b
    ensures Filter({a, b}, xs + [c] + ys) == Filter({a, b}, xs + ys)
  {
    Loops.FilterConcat({a, b}, xs + [c], ys);
    Loops.FilterConcat({a, b}, xs, [c]);
    Loops.FilterConcat({a, b}, xs, ys);
    FilterNeither([c], a, b);
    assert Filter({a, b}, xs) + [] == Filter({a, b}, xs);
  }

  /** Inserting a third thread changes nothing between two. */
  lemma InsertKeepsAhead(key: Total<Tid, int>, xs: seq<Tid>, c: Tid, a: Tid, b: Tid)
    requires c != a && c != b
    ensures Ahead(Insert(key, xs, c), a, b) <==> Ahead(xs, a, b)
  {
    hide Filter;
    var p := Place(key, xs, c);
    assert xs == xs[..p] + xs[p..];
    FilterMiddle(xs[..p], c, xs[p..], a, b);
  }

  lemma {:induction false} FilterOne(xs: seq<Tid>, a: Tid, b: Tid)
    requires NoDup(xs) && a in xs && b !in xs
    ensures Filter({a, b}, xs) == [a]
  {
    NoDupTail(xs);
    if xs[0] == a {
      FilterNeither(xs[1..], a, b);
    } else {
      FilterOne(xs[1..], a, b);
    }
  }

  lemma {:induction false} FilterNeither(xs: seq<Tid>, a: Tid, b: Tid)
    requires a !in xs && b !in xs
    ensures Filter({a, b}, xs) == []
  {
    if xs != [] {
      FilterNeither(xs[1..], a, b);
    }
  }

  /** A thread joins a list behind another if and only if nobody up to and including
      that other is less urgent than it is. */
  lemma JoinsBehindIff(key: Total<Tid, int>, xs: seq<Tid>, i: nat, b: Tid)
    requires NoDup(xs) && i < |xs| && b !in xs
    ensures Ahead(Insert(key, xs, b), xs[i], b) <==> forall k :: 0 <= k <= i ==> key(xs[k]) >= key(b)
  {
    var a, p := xs[i], Place(key, xs, b);
    assert a in xs;
    NoDupParts(xs, p);
    Loops.FilterConcat({a, b}, xs[..p] + [b], xs[p..]);
    Loops.FilterConcat({a, b}, xs[..p], [b]);
    assert [b][1..] == [];
    if i < p {
      assert xs[..p][i] == a;
      FilterOne(xs[..p], a, b);
      FilterNeither(xs[p..], a, b);
      assert Filter({a, b}, Insert(key, xs, b)) == [a] + [b] + [];
      assert [a] + [b] + [] == [a, b];
    } else {
      assert xs[p..][i - p] == a;
      FilterOne(xs[p..], a, b);
      FilterNeither(xs[..p], a, b);
      assert Filter({a, b}, Insert(key, xs, b))[0] == b;
      assert key(xs[p]) < key(b);
    }
  }

  lemma NoDupParts(xs: seq<Tid>, p: nat)
    requires NoDup(xs) && p <= |xs|
    ensures NoDup(xs[..p]) && NoDup(xs[p..]) && forall t :: t in xs[..p] ==> t !in xs[p..]
  {
    assert xs == xs[..p] + xs[p..];
    assert multiset(xs) == multiset(xs[..p]) + multiset(xs[p..]);
    forall t | t in xs[..p] ensures multiset(xs[..p])[t] == 1 && t !in xs[p..] {
      assert t in xs && multiset(xs)[t] == 1;
    }
    forall t | t in xs[p..] ensures multiset(xs[p..])[t] == 1 {
      assert t in xs && multiset(xs)[t] == 1;
    }
  }

  /** Taking the head of the sorted list. */
  lemma PopInOrder(key: Total<Tid, int>, xs: seq<Tid>, a: Tid, b: Tid)
    requires a != b && key(a) == key(b) && NoDup(xs) && xs != [] && InOrder(xs, a, b)
    ensures var q := Sort(key, xs);
            a in q[1..] ==> InOrder(q[1..], a, b) && (b in xs ==> b in q[1..])
  {
    var q := Sort(key, xs);
    SortMembers(key, xs);
    NoDupSort(key, xs);
    NoDupTail(q);
    if b in xs {
      SortKeepsAhead(key, xs, a, b);
      assert Filter({a, b}, q)[0] == a;
    }
  }

  /** A line of threads in which a stands, ahead of b if b is there. */
  ghost predicate Line(key: Total<Tid, int>, xs: seq<Tid>, a: Tid, b: Tid) {
    Descending(key, xs) && NoDup(xs) && InOrder(xs, a, b)
  }

  lemma InsertInLine(key: Total<Tid, int>, xs: seq<Tid>, c: Tid, a: Tid, b: Tid)
    requires a != b && key(a) == key(b) && Line(key, xs, a, b) && c !in xs
    ensures Line(key, Insert(key, xs, c), a, b)
  {
    InsertDescending(key, xs, c);
    NoDupInsert(key, xs, c);
    InsertMembers(key, xs, c);
    if c == b {
      var i :| 0 <= i < |xs| && xs[i] == a;
      JoinsBehindIff(key, xs, i, b);
    } else {
      InsertKeepsAhead(key, xs, c, a, b);
    }
  }

  /** After t and then a less urgent r have joined a list in order, t is dispatched if
      and only if everybody who was there is less urgent. */
  lemma NewcomerFirstIff(key: Total<Tid, int>, xs: seq<Tid>, t: Tid, r: Tid)
    requires Descending(key, xs) && NoDup(xs) && t !in xs && r !in xs && key(t) > key(r)
    ensures Sort(key, Insert(key, Insert(key, xs, t), r))[0] == t <==> forall u :: u in xs ==> key(u) < key(t)
  {
    hide Insert, Sort;
    var ys := Insert(key, xs, t);
    var zs := Insert(key, ys, r);
    InsertMembers(key, xs, t);
    InsertMembers(key, ys, r);
    SortMembers(key, zs);
    SortHead(key, zs);
    if u :| u in xs && key(u) == key(t) {
      var i :| 0 <= i < |xs| && xs[i] == u;
      JoinsBehindIff(key, xs, i, t);
      InsertKeepsAhead(key, ys, r, u, t);
      SortKeepsAhead(key, zs, u, t);
      NotFirst(Sort(key, zs), u, t);
    }
  }

  lemma NotFirst(xs: seq<Tid>, a: Tid, b: Tid)
    requires xs != [] && a != b && Ahead(xs, a, b)
    ensures xs[0] != b
  {
    if xs[0] == b {
      assert Filter({a, b}, xs)[0] == b;
    }
  }

  // ---------- the ready list ----------

  /** What a dispatch leaves of the order of a and b. */
  ghost predicate Kept(xs: seq<Tid>, ys: seq<Tid>, a: Tid, b: Tid) {
    a in ys ==> InOrder(ys, a, b) && (b in xs ==> b in ys)
  }

  lemma ScheduleInOrder(c: Cpu, prio: Total<Tid, int>, a: Tid, b: Tid)
    requires a != b && prio(a) == prio(b) && NoDup(c.ready) && InOrder(c.ready, a, b)
    ensures Kept(c.ready, Schedule(c, prio).ready, a, b)
  {
    PopInOrder(prio, c.ready, a, b);
  }

  lemma YieldInOrder(c: Cpu, prio: Total<Tid, int>, a: Tid, b: Tid)
    requires a != b && prio(a) == prio(b) && Line(prio, c.ready, a, b) && c.running !in c.ready
    ensures Kept(c.ready, YieldCpu(c, prio).ready, a, b)
  {
    hide Insert, Sort, Line;
    if c.running != c.idle {
      InsertInLine(prio, c.ready, c.running, a, b);
    }
    LineIs(prio, Requeue(c, prio).ready, a, b);
    InsertMembers(prio, c.ready, c.running);
    ScheduleInOrder(Requeue(c, prio), prio, a, b);
  }

  lemma LineIs(key: Total<Tid, int>, xs: seq<Tid>, a: Tid, b: Tid)
    requires Line(key, xs, a, b)
    ensures NoDup(xs) && InOrder(xs, a, b)
  {
  }

  lemma StealInOrder(c: Cpu, prio: Total<Tid, int>, a: Tid, b: Tid)
    requires a != b && prio(a) == prio(b) && Line(prio, c.ready, a, b) && c.running !in c.ready
    ensures Kept(c.ready, Steal(c, prio).ready, a, b)
  {
    hide YieldCpu;
    YieldInOrder(c, prio, a, b);
  }

  lemma {:induction false} UnblockAllInLine(c: Cpu, prio: Total<Tid, int>, ts: seq<Tid>, a: Tid, b: Tid)
    requires a != b && prio(a) == prio(b) && Line(prio, c.ready, a, b) && NoDup(ts) && forall t :: t in ts ==> t !in c.ready
    ensures Line(prio, UnblockAll(c, prio, ts).ready, a, b)
    decreases |ts|
  {
    hide Insert, Line;
    if ts != [] {
      NoDupTail(ts);
      InsertMembers(prio, c.ready, ts[0]);
      InsertInLine(prio, c.ready, ts[0], a, b);
      UnblockAllInLine(Unblock(c, prio, ts[0]), prio, ts[1..], a, b);
    }
  }

  /** The running thread's part of a step. */
  lemma ActInOrder(c: Cpu, y: Sync, y': Sync, act: Action, a: Tid, b: Tid)
    requires Scheduled(c, y) && Parked(y) && Fits(y, y', c.running, act)
    requires a != b && y'.prio(a) == y'.prio(b) && InOrder(c.ready, a, b)
    ensures Kept(c.ready, Act(c, y'.prio, act).ready, a, b)
  {
    hide Insert, Sort, Parked;
    assert c.running !in c.ready;
    match act {
      case Stay =>
      case BlockIt => ScheduleInOrder(c.(status := Put(c.status, c.running, Blocked)), y'.prio, a, b);
      case YieldIt =>
        SameOrder(y.prio, y'.prio, c.ready);
        YieldInOrder(c, y'.prio, a, b);
      case SleepIt(d) =>
        var c1 := c.(sleeping := c.sleeping + [c.running], wake := Put(c.wake, c.running, d));
        ScheduleInOrder(c1.(status := Put(c.status, c.running, Blocked)), y'.prio, a, b);
      case WakeUp(None) =>
        SameOrder(y.prio, y'.prio, c.ready);
        StealInOrder(c, y'.prio, a, b);
      case WakeUp(Some(u)) =>
        SameOrder(y.prio, y'.prio, c.ready);
        assert c.status(u) == Blocked;
        WakeInOrder(c, y'.prio, u, a, b);
    }
  }

  lemma WakeInOrder(c: Cpu, prio: Total<Tid, int>, u: Tid, a: Tid, b: Tid)
    requires a != b && prio(a) == prio(b) && Line(prio, c.ready, a, b)
    requires c.running !in c.ready && u !in c.ready && u != c.running
    ensures Kept(c.ready, Steal(Unblock(c, prio, u), prio).ready, a, b)
  {
    hide Insert, Sort, Line, Steal;
    InsertMembers(prio, c.ready, u);
    InsertInLine(prio, c.ready, u, a, b);
    StealInOrder(Unblock(c, prio, u), prio, a, b);
  }

  lemma AwakeInLine(c: Cpu, y: Sync, a: Tid, b: Tid)
    requires Scheduled(c, y) && a != b && y.prio(a) == y.prio(b) && InOrder(c.ready, a, b)
    ensures Line(y.prio, Awake(c, y.prio).ready, a, b)
    ensures forall t :: t in c.ready ==> t in Awake(c, y.prio).ready
    ensures Awake(c, y.prio).running == c.running && c.running !in Awake(c, y.prio).ready
  {
    hide Insert, UnblockAll;
    AwakeIs(c, y);
    NoDupFilter(Due(c), c.sleeping);
    FilterMembers(Due(c), c.sleeping);
    UnblockAllInLine(c.(sleeping := Filter(NotDue(c), c.sleeping)), y.prio, Filter(Due(c), c.sleeping), a, b);
  }

  /** Of two threads unblocked one after the other the first stands ahead among its equals. */
  lemma {:induction false} UnblockAllInOrder(c: Cpu, prio: Total<Tid, int>, ts: seq<Tid>, a: Tid, b: Tid)
    requires a != b && prio(a) == prio(b) && Ahead(ts, a, b) && NoDup(ts) && forall t :: t in ts ==> t !in c.ready
    requires Descending(prio, c.ready) && NoDup(c.ready)
    ensures Line(prio, UnblockAll(c, prio, ts).ready, a, b) && b in UnblockAll(c, prio, ts).ready
    decreases |ts|
  {
    hide Insert;
    AheadMembers(ts, a, b);
    NoDupTail(ts);
    var c1 := Unblock(c, prio, ts[0]);
    InsertMembers(prio, c.ready, ts[0]);
    InsertDescending(prio, c.ready, ts[0]);
    NoDupInsert(prio, c.ready, ts[0]);
    if ts[0] == a {
      UnblockAllInLine(c1, prio, ts[1..], a, b);
      UnblockAllIs(c1, prio, ts[1..]);
      assert b in multiset(ts[1..]);
      assert b in multiset(UnblockAll(c1, prio, ts[1..]).ready);
    } else {
      NotFirst(ts, a, b);
      UnblockAllInOrder(c1, prio, ts[1..], a, b);
    }
  }

  /** Of two equally urgent sleepers whose deadlines have come by the same interrupt, the one that
      fell asleep first stands ahead when it is over, unless it has been dispatched. */
  lemma SleepersInOrder(s: State, a: Tid, b: Tid)
    requires Inv(s) && a != b && s.sync.prio(a) == s.sync.prio(b) && Ahead(s.cpu.sleeping, a, b)
    requires s.cpu.wake(a) <= s.cpu.ticks + 1 && s.cpu.wake(b) <= s.cpu.ticks + 1
    ensures var ready := Step(s, Tick).cpu.ready; a in ready ==> Ahead(ready, a, b)
  {
    hide Insert, Sort, YieldCpu, Awake, Line, Ahead, Filter;
    var c, y := s.cpu, s.sync;
    var c1 := c.(ticks := c.ticks + 1, slice := c.slice + 1);
    BlockedFrame(c, c1, y);
    AwakeInOrder(c1, y, a, b);
    LineIs(y.prio, Awake(c1, y.prio).ready, a, b);
    YieldInOrder(Awake(c1, y.prio), y.prio, a, b);
  }

  lemma AwakeInOrder(c: Cpu, y: Sync, a: Tid, b: Tid)
    requires Scheduled(c, y) && a != b && y.prio(a) == y.prio(b) && Ahead(c.sleeping, a, b)
    requires c.wake(a) <= c.ticks && c.wake(b) <= c.ticks
    ensures var c' := Awake(c, y.prio);
            && Line(y.prio, c'.ready, a, b) && b in c'.ready && c'.running == c.running && c.running !in c'.ready
            && c'.slice == c.slice
  {
    hide Insert, UnblockAll, Line;
    AwakeIs(c, y);
    AheadMembers(c.sleeping, a, b);
    NoDupFilter(Due(c), c.sleeping);
    FilterMembers(Due(c), c.sleeping);
    FilterTwice(Due(c), c.sleeping, a, b);
    UnblockAllInOrder(c.(sleeping := Filter(NotDue(c), c.sleeping)), y.prio, Filter(Due(c), c.sleeping), a, b);
  }

  lemma {:induction false} FilterTwice(keep: set<Tid>, xs: seq<Tid>, a: Tid, b: Tid)
    requires a in keep && b in keep
    ensures Filter({a, b}, Filter(keep, xs)) == Filter({a, b}, xs)
  {
    if xs != [] {
      FilterTwice(keep, xs[1..], a, b);
      if xs[0] in keep {
        assert ([xs[0]] + Filter(keep, xs[1..]))[1..] == Filter(keep, xs[1..]);
      }
    }
  }

  lemma TickInOrder(c: Cpu, y: Sync, a: Tid, b: Tid)
    requires Scheduled(c, y) && a != b && y.prio(a) == y.prio(b) && InOrder(c.ready, a, b)
    ensures Kept(c.ready, TimerTick(c, y.prio).ready, a, b)
  {
    hide Insert, Sort, YieldCpu, Awake, Line;
    var c1 := c.(ticks := c.ticks + 1, slice := c.slice + 1);
    AwakeInLine(c1, y, a, b);
    LineIs(y.prio, Awake(c1, y.prio).ready, a, b);
    YieldInOrder(Awake(c1, y.prio), y.prio, a, b);
  }

  lemma StartInOrder(c: Cpu, prio: Total<Tid, int>, t: Tid, a: Tid, b: Tid)
    requires a != b && prio(a) == prio(b) && Line(prio, c.ready, a, b)
    requires c.running !in c.ready && t !in c.ready && t != c.running
    ensures Kept(c.ready, StartThread(c, prio, t).ready, a, b)
  {
    hide Insert, Sort, Line, YieldCpu;
    InsertMembers(prio, c.ready, t);
    InsertInLine(prio, c.ready, t, a, b);
    LineIs(prio, Unblock(c, prio, t).ready, a, b);
    YieldInOrder(Unblock(c, prio, t), prio, a, b);
  }

  /** In any step, two ready threads whose priorities are then equal stay in order,
      the first is not left behind by the second's dispatch, and a thread that
      becomes ready stands behind those of its priority that already were. */
  lemma StepInOrder(s: State, e: Event, a: Tid, b: Tid)
    requires Inv(s) && Enabled(s, e) && a != b && InOrder(s.cpu.ready, a, b)
    requires Step(s, e).sync.prio(a) == Step(s, e).sync.prio(b)
    ensures Kept(s.cpu.ready, Step(s, e).cpu.ready, a, b)
  {
    hide Kept, InOrder, Act, TimerTick, StartThread, Exec, SyncInv;
    var c, y, r := s.cpu, s.sync, s.cpu.running;
    match e {
      case Call(op) => StayInOrder(c.ready, a, b);
      case Run(path, order) =>
        RunActs(s, path, order);
        ActInOrder(c, y, Exec(y, r, path, order).0, Exec(y, r, path, order).1, a, b);
      case Tick => TickInOrder(c, y, a, b);
      case Create(t, p) => CreateInOrder(s, t, p, a, b);
      case Exit =>
        ScheduleInOrder(c.(status := Put(c.status, r, Dying)), y.prio, a, b);
    }
  }

  lemma StayInOrder(xs: seq<Tid>, a: Tid, b: Tid)
    requires InOrder(xs, a, b)
    ensures Kept(xs, xs, a, b)
  {
  }

  lemma RunActs(s: State, path: seq<Tid>, order: seq<Tid>)
    requires Inv(s) && Enabled(s, Run(path, order))
    ensures Parked(s.sync) && Scheduled(s.cpu, s.sync)
    ensures var (y', a) := Exec(s.sync, s.cpu.running, path, order); Fits(s.sync, y', s.cpu.running, a)
  {
    RunningIsActive(s.cpu, s.sync);
    RunFits(s.sync, s.cpu.running, path, order);
  }

  lemma CreateInOrder(s: State, t: Tid, p: int, a: Tid, b: Tid)
    requires Inv(s) && Enabled(s, Create(t, p)) && a != b && InOrder(s.cpu.ready, a, b)
    requires AddThread(s.sync, t, p).prio(a) == AddThread(s.sync, t, p).prio(b)
    ensures Kept(s.cpu.ready, StartThread(s.cpu, AddThread(s.sync, t, p).prio, t).ready, a, b)
  {
    var c, y := s.cpu, s.sync;
    SameOrder(y.prio, AddThread(y, t, p).prio, c.ready);
    StartInOrder(c, AddThread(y, t, p).prio, t, a, b);
  }

  /** If b is ready around step i, a and b have the same priority after it. */
  ghost predicate EqualAfter(ss: seq<State>, i: nat, a: Tid, b: Tid)
    requires i + 1 < |ss|
  {
    b in ss[i].cpu.ready || b in ss[i + 1].cpu.ready ==> ss[i + 1].sync.prio(a) == ss[i + 1].sync.prio(b)
  }

  /** First come, first served, over a run: while a stays ready, a thread that becomes
      ready later stands behind it, and is not dispatched before it, for as long as
      the two have the same priority. */
  lemma {:induction false} ReadyFifo(ss: seq<State>, es: seq<Event>, a: Tid, b: Tid)
    requires KernelRun(ss, es) && a != b && b !in ss[0].cpu.ready
    requires forall i :: 0 <= i < |ss| ==> a in ss[i].cpu.ready
    requires forall i :: 0 <= i < |es| ==> EqualAfter(ss, i, a, b)
    ensures b in ss[|es|].cpu.ready ==> Ahead(ss[|es|].cpu.ready, a, b)
    ensures forall i :: 0 <= i < |es| && b in ss[i].cpu.ready ==> b in ss[|es|].cpu.ready
  {
    hide Inv, Enabled, Step, Reachable, Ahead;
    if es != [] {
      var n := |es| - 1;
      KernelRunPrefix(ss, es);
      KernelRunInv(ss, es, n);
      var ss', es' := ss[..|es|], es[..n];
      assert forall i :: 0 <= i < |ss'| ==> ss'[i] == ss[i];
      forall i | 0 <= i < |es'| ensures EqualAfter(ss', i, a, b) {
        assert EqualAfter(ss, i, a, b);
        assert ss'[i] == ss[i] && ss'[i + 1] == ss[i + 1];
      }
      ReadyFifo(ss', es', a, b);
      assert ss'[|es'|] == ss[n];
      assert EqualAfter(ss, n, a, b);
      if b in ss[n].cpu.ready || b in ss[n + 1].cpu.ready {
        RunStep(ss, es, n);
        StepInOrder(ss[n], es[n], a, b);
      }
    }
  }

  lemma RunStep(ss: seq<State>, es: seq<Event>, n: nat)
    requires KernelRun(ss, es) && n < |es|
    ensures Enabled(ss[n], es[n]) && ss[n + 1] == Step(ss[n], es[n])
  {
  }

  // ---------- the queue of a semaphore ----------

  /** A thread that parks on a semaphore stands behind a waiter if and only if no
      waiter up to and including that one is now less urgent than it is. */
  lemma ParksBehindIff(y: Sync, r: Tid, sm: Sema, i: nat)
    requires Parked(y) && Active(y, r) && i < |y.waiters(sm)|
    ensures Ahead(ParkAt(y, r, sm).waiters(sm), y.waiters(sm)[i], r) <==>
            forall k :: 0 <= k <= i ==> y.prio(y.waiters(sm)[k]) >= y.prio(r)
  {
    JoinsBehindIff(y.prio, y.waiters(sm), i, r);
  }

  /** Parking on a semaphore, or being taken from it, keeps two waiters in order. */
  lemma DownInOrder(y: Sync, r: Tid, sn: Sema, sm: Sema, a: Tid, b: Tid)
    requires Active(y, r) && Ahead(y.waiters(sm), a, b)
    ensures Ahead(Down(y, r, sn).0.waiters(sm), a, b)
  {
    AheadMembers(y.waiters(sm), a, b);
    InsertKeepsAhead(y.prio, y.waiters(sm), r, a, b);
  }

  lemma UpInOrder(y: Sync, r: Tid, sn: Sema, sm: Sema, a: Tid, b: Tid)
    requires Parked(y) && a != b && (sn == sm ==> y.prio(a) == y.prio(b)) && Ahead(y.waiters(sm), a, b)
    ensures a in Up(y, r, sn).0.waiters(sm) ==> Ahead(Up(y, r, sn).0.waiters(sm), a, b)
  {
    AheadMembers(y.waiters(sm), a, b);
    if sn == sm {
      PopInOrder(y.prio, y.waiters(sm), a, b);
    }
  }

  lemma AcquireInOrder(y: Sync, r: Tid, l: LockId, path: seq<Tid>, sm: Sema, a: Tid, b: Tid)
    requires Active(y, r) && Ahead(y.waiters(sm), a, b)
    ensures Ahead(StartAcquire(y, r, l, path).0.waiters(sm), a, b)
  {
    hide Down, Ahead;
    var y1 := Move(y, r, LockDown(l, false));
    if y.holder(l).Some? {
      var y2 := Donate(y1, r, l, y.holder(l).value, path);
      DownInOrder(y2, r, OfLock(l), sm, a, b);
    }
  }

  lemma WaitInOrder(y: Sync, r: Tid, c: Cond, order: seq<Tid>, sm: Sema, a: Tid, b: Tid)
    requires Parked(y) && Active(y, r) && Ahead(y.waiters(sm), a, b)
    ensures Ahead(StartWait(y, r, c, order).waiters(sm), a, b)
  {
    OwnSemaphoreEmpty(y, r);
    AheadMembers(y.waiters(sm), a, b);
  }

  /** Whatever the running thread does, two waiters stay in order, and the second is not
      woken before the first, unless it ups their semaphore and finds their priorities different. */
  lemma RunKeepsWaiters(y: Sync, r: Tid, path: seq<Tid>, order: seq<Tid>, sm: Sema, a: Tid, b: Tid)
    requires Parked(y) && Active(y, r) && a != b && Ahead(y.waiters(sm), a, b)
    requires UpOn(y.pc(r)) == Some(sm) ==> y.prio(a) == y.prio(b)
    ensures var q := Exec(y, r, path, order).0.waiters(sm); a in q ==> Ahead(q, a, b)
  {
    hide Parked, Active, Ahead, Down, Up, StartAcquire, StartWait;
    match y.pc(r) {
      case PlainDown(n, _) => DownInOrder(y, r, Named(n), sm, a, b);
      case LockDown(l, _) => DownInOrder(y, r, OfLock(l), sm, a, b);
      case WaitDown(_, _) => DownInOrder(y, r, OfWaiter(r), sm, a, b);
      case PlainUp(n) => UpInOrder(y, r, Named(n), sm, a, b);
      case ReleaseUp(l, _) => UpInOrder(y, r, OfLock(l), sm, a, b);
      case SignalUp(_, t, _) => UpInOrder(y, r, OfWaiter(t), sm, a, b);
      case Acquire(l) => AcquireInOrder(y, r, l, path, sm, a, b);
      case CondWait(c) => WaitInOrder(y, r, c, order, sm, a, b);
      case _ =>
    }
  }

  /** Over a run: of two waiters of a semaphore whose priorities are equal at each sema_up
      of it, the one ahead in the queue is woken first. */
  lemma {:induction false} WaitersLeaveInOrder(ss: seq<State>, es: seq<Event>, sm: Sema, a: Tid, b: Tid)
    requires KernelRun(ss, es) && a != b && Ahead(ss[0].sync.waiters(sm), a, b)
    requires forall i :: 0 <= i < |es| ==> a in ss[i].sync.waiters(sm)
    requires forall i :: 0 <= i < |es| && DoesUp(ss[i], es[i], sm) ==> ss[i].sync.prio(a) == ss[i].sync.prio(b)
    ensures a in ss[|es|].sync.waiters(sm) ==> Ahead(ss[|es|].sync.waiters(sm), a, b)
    ensures b !in ss[|es|].sync.waiters(sm) ==> a !in ss[|es|].sync.waiters(sm)
  {
    hide Inv, Enabled, Reachable, Ahead, Exec;
    if es == [] {
      AheadMembers(ss[0].sync.waiters(sm), a, b);
    } else {
      var n := |es| - 1;
      KernelRunPrefix(ss, es);
      KernelRunInv(ss, es, n);
      var ss', es' := ss[..|es|], es[..n];
      assert forall i :: 0 <= i < |ss'| ==> ss'[i] == ss[i];
      WaitersLeaveInOrder(ss', es', sm, a, b);
      assert ss'[|es'|] == ss[n];
      RunStep(ss, es, n);
      var y, r := ss[n].sync, ss[n].cpu.running;
      RunParts(ss[n]);
      if es[n].Run? {
        RunKeepsWaiters(y, r, es[n].path, es[n].order, sm, a, b);
      }
      if a in ss[n + 1].sync.waiters(sm) {
        AheadMembers(ss[n + 1].sync.waiters(sm), a, b);
      }
    }
  }

  lemma RunParts(s: State)
    requires Inv(s)
    ensures Parked(s.sync) && Active(s.sync, s.cpu.running)
  {
    RunningIsActive(s.cpu, s.sync);
  }
}
