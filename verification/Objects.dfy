/**
 The kernel's objects, updated in place. Each method is one function of the C
 code, or the stretch of one that runs without a thread switch, and leaves the
 objects in the state the machine's function of the same step yields.
 */
module Objects {
  import opened Lists
  import opened Loops
  import M = Machine
  import opened Invariant
  import Turns

  type Tid = M.Tid
  type Option<T> = M.Option<T>

  /** struct thread, with the point its kernel stack continues from. */
  class Thread {
    const tid: Tid
    var status: M.Status
    var priority: int
    var initPriority: int
    var waitingLock: Option<M.LockId>
    var donations: seq<Tid>
    var sleepingTicks: int
    var pc: M.Pc

    constructor (tid: Tid, priority: int, pc: M.Pc)
      ensures this.tid == tid
      ensures status == M.Blocked && this.priority == priority && initPriority == priority
      ensures waitingLock == M.None && donations == [] && sleepingTicks == 0 && this.pc == pc
    {
      this.tid, this.status, this.priority, this.initPriority := tid, M.Blocked, priority, priority;
      this.waitingLock, this.donations, this.sleepingTicks, this.pc := M.None, [], 0, pc;
    }
  }

  class Semaphore {
    const name: M.Sema
    var value: nat
    var waiters: seq<Tid>

    constructor (name: M.Sema, value: nat)
      ensures this.name == name && this.value == value && waiters == []
    {
      this.name, this.value, this.waiters := name, value, [];
    }
  }

  class Lock {
    const name: M.LockId
    var holder: Option<Tid>

    constructor (name: M.LockId)
      ensures this.name == name && holder == M.None
    {
      this.name, holder := name, M.None;
    }
  }

  class Condition {
    const name: M.Cond
    var waiters: seq<Tid>

    constructor (name: M.Cond)
      ensures this.name == name && waiters == []
    {
      this.name, waiters := name, [];
    }
  }

  /** The kernel. The keys of thread are the pages that threads can be made of; those
      not in use hold initialized threads that the machine does not have yet. */
  class Kernel {
    const idle: Tid
    const thread: map<Tid, Thread>
    const sema: map<M.Sema, Semaphore>
    const lock: map<M.LockId, Lock>
    const cond: map<M.Cond, Condition>
    const threads: set<Thread>
    const semas: set<Semaphore>
    const locks: set<Lock>
    const conds: set<Condition>
    var running: Tid
    var ready: seq<Tid>
    var sleeping: seq<Tid>
    var ticks: int
    var slice: nat

    // ---------- what the objects show ----------

    /** Each name denotes the one object that carries it. */
    ghost predicate Distinct() {
      && (forall t :: t in thread ==> thread[t] in threads && thread[t].tid == t)
      && (forall o :: o in threads ==> o.tid in thread && thread[o.tid] == o)
      && (forall n :: n in sema ==> sema[n] in semas && sema[n].name == n)
      && (forall o :: o in semas ==> o.name in sema && sema[o.name] == o)
      && (forall l :: l in lock ==> lock[l] in locks && lock[l].name == l)
      && (forall o :: o in locks ==> o.name in lock && lock[o.name] == o)
      && (forall c :: c in cond ==> cond[c] in conds && cond[c].name == c)
      && (forall o :: o in conds ==> o.name in cond && cond[o.name] == o)
    }

    ghost predicate Known(ts: seq<Tid>) {
      forall t :: t in ts ==> t in thread
    }

    ghost predicate StatusIs(f: Total<Tid, M.Status>)
      reads threads`status
    {
      forall t :: t in threads ==> t.status == f(t.tid)
    }

    ghost predicate PrioIs(f: Total<Tid, int>)
      reads threads`priority
    {
      forall t :: t in threads ==> t.priority == f(t.tid)
    }

    ghost predicate WakeIs(f: Total<Tid, int>)
      reads threads`sleepingTicks
    {
      forall t :: t in threads ==> t.sleepingTicks == f(t.tid)
    }

    /** The scheduling fields are as in c, and its lists name existing threads. */
    ghost predicate CpuIs(c: M.Cpu)
      reads `running, `ready, `sleeping, `ticks, `slice, threads`status, threads`sleepingTicks
    {
      && idle == c.idle && running == c.running && ready == c.ready && sleeping == c.sleeping
      && ticks == c.ticks && slice == c.slice
      && StatusIs(c.status) && WakeIs(c.wake)
      && running in thread && idle in thread && Known(ready) && Known(sleeping)
    }

    ghost predicate PcIs(f: Total<Tid, M.Pc>)
      reads threads`pc
    {
      forall t :: t in threads ==> t.pc == f(t.tid)
    }

    ghost predicate InitIs(f: Total<Tid, int>)
      reads threads`initPriority
    {
      forall t :: t in threads ==> t.initPriority == f(t.tid)
    }

    ghost predicate WaitingIs(f: Total<Tid, Option<M.LockId>>)
      reads threads`waitingLock
    {
      forall t :: t in threads ==> t.waitingLock == f(t.tid)
    }

    ghost predicate DonationsIs(f: Total<Tid, seq<Tid>>)
      reads threads`donations
    {
      forall t :: t in threads ==> t.donations == f(t.tid)
    }

    ghost predicate ValueIs(f: Total<M.Sema, nat>)
      reads semas`value
    {
      forall sm :: sm in semas ==> sm.value == f(sm.name)
    }

    ghost predicate WaitersIs(f: Total<M.Sema, seq<Tid>>)
      reads semas`waiters
    {
      forall sm :: sm in semas ==> sm.waiters == f(sm.name)
    }

    ghost predicate HolderIs(f: Total<M.LockId, Option<Tid>>)
      reads locks`holder
    {
      forall l :: l in locks ==> l.holder == f(l.name)
    }

    ghost predicate QueueIs(f: Total<M.Cond, seq<Tid>>)
      reads conds`waiters
    {
      forall c :: c in conds ==> c.waiters == f(c.name)
    }

    /** The fields of the synchronization code are as in y. */
    ghost predicate SyncIs(y: M.Sync)
      reads threads`pc, threads`priority, threads`initPriority
      reads threads`waitingLock, threads`donations
      reads semas`value, semas`waiters, locks`holder, conds`waiters
    {
      && y.threads <= thread.Keys
      && PcIs(y.pc) && PrioIs(y.prio) && InitIs(y.init) && WaitingIs(y.waiting) && DonationsIs(y.donations)
      && ValueIs(y.value) && WaitersIs(y.waiters) && HolderIs(y.holder) && QueueIs(y.queue)
    }

    /** Every field of every object is as in s. */
    ghost predicate Shows(s: M.State)
      reads this, threads, semas, locks, conds
    {
      CpuIs(s.cpu) && SyncIs(s.sync)
    }

    ghost predicate PcLinked(t: Tid, pc: M.Pc) {
      match pc
      case PlainDown(n, _) => M.Named(n) in sema
      case PlainTry(n) => M.Named(n) in sema
      case PlainUp(n) => M.Named(n) in sema
      case Acquire(l) => l in lock
      case LockDown(l, _) => l in lock
      case TryAcquire(l) => l in lock
      case Own(l, _) => l in lock
      case Release(l, next) => l in lock && (next.WaitOn? ==> next.cond in cond)
      case ReleaseUp(l, next) => l in lock && (next.WaitOn? ==> next.cond in cond)
      case CondWait(c) => c in cond
      case WaitDown(c, _) => c in cond
      case Signal(c, _) => c in cond
      case SignalUp(c, u, _) => c in cond && u in thread
      case Broadcast(c) => c in cond
      case _ => true
    }

    /** Every name that y uses for one of these objects denotes one. */
    ghost predicate Linked(y: M.Sync) {
      && (forall t :: t in thread ==> M.OfWaiter(t) in sema && PcLinked(t, y.pc(t)) && Known(y.donations(t)))
      && (forall t :: t in thread && y.waiting(t).Some? ==> y.waiting(t).value in lock)
      && (forall sm :: sm in sema ==> Known(y.waiters(sm)))
      && (forall l :: l in lock ==> M.OfLock(l) in sema && (y.holder(l).Some? ==> y.holder(l).value in thread))
      && (forall c :: c in cond ==> c.lock in lock && Known(y.queue(c)))
    }

    /** The kernel over tables of initialized objects. */
    constructor (idle: Tid, main: Tid, named: map<int, nat>,
                 thread: map<Tid, Thread>, threads: set<Thread>, sema: map<M.Sema, Semaphore>, semas: set<Semaphore>,
                 lock: map<M.LockId, Lock>, locks: set<Lock>, cond: map<M.Cond, Condition>, conds: set<Condition>)
      requires idle != main && idle in thread && main in thread
      requires FirstThreads(thread, threads, idle, main) && FirstSemaphores(sema, semas, named)
      requires FirstLocks(lock, locks) && FirstConditions(cond, conds)
      requires forall t :: t in thread ==> M.OfWaiter(t) in sema
      requires forall l :: l in lock ==> M.OfLock(l) in sema
      requires forall c :: c in cond ==> c.lock in lock
      ensures this.thread == thread && this.sema == sema && this.lock == lock && this.cond == cond
      ensures this.threads == threads && this.semas == semas && this.locks == locks && this.conds == conds
      ensures Distinct() && Shows(BootState(idle, main, named)) && Linked(BootState(idle, main, named).sync)
    {
      hide BootState, Shows, Linked, Initial, Distinct, FirstThreads, FirstSemaphores, FirstLocks, FirstConditions;
      this.idle, this.thread, this.sema, this.lock, this.cond := idle, thread, sema, lock, cond;
      this.threads, this.semas, this.locks, this.conds := threads, semas, locks, conds;
      running, ready, sleeping, ticks, slice := main, [], [], 0, 0;
      new;
      BootIs(idle, main, named);
      InitialIs(main, named);
      BootShown(BootState(idle, main, named));
    }

    /** The state of the objects after thread_init, sema_init, lock_init and cond_init. */
    ghost predicate Initial(s: M.State)
      reads threads, semas, locks, conds
    {
      && (forall o :: o in threads ==> o.waitingLock == M.None && o.donations == [] && o.pc == s.sync.pc(o.tid))
      && (forall o :: o in threads ==> o.priority == s.sync.prio(o.tid) && o.initPriority == s.sync.init(o.tid))
      && (forall o :: o in threads ==> o.status == s.cpu.status(o.tid) && o.sleepingTicks == s.cpu.wake(o.tid))
      && (forall o :: o in semas ==> o.waiters == [] && o.value == s.sync.value(o.name))
      && (forall o :: o in locks ==> o.holder == M.None)
      && (forall o :: o in conds ==> o.waiters == [])
      && (forall t :: t in thread ==> M.OfWaiter(t) in sema)
      && (forall l :: l in lock ==> M.OfLock(l) in sema)
      && (forall c :: c in cond ==> c.lock in lock)
    }

    lemma InitialIs(main: Tid, named: map<int, nat>)
      requires FirstThreads(thread, threads, idle, main) && FirstSemaphores(sema, semas, named)
      requires FirstLocks(lock, locks) && FirstConditions(cond, conds)
      requires forall t :: t in thread ==> M.OfWaiter(t) in sema
      requires forall l :: l in lock ==> M.OfLock(l) in sema
      requires forall c :: c in cond ==> c.lock in lock
      ensures Distinct() && Initial(BootState(idle, main, named))
    {
    }

    /** Initial objects show a boot state. */
    lemma BootShown(s: M.State)
      requires M.Boot(s) && Initial(s) && s.sync.threads <= thread.Keys
      requires idle == s.cpu.idle && running == s.cpu.running && ready == [] && sleeping == []
      requires ticks == s.cpu.ticks && slice == 0
      ensures Shows(s) && Linked(s.sync)
    {
    }

    // ---------- lists ----------

    /** list_insert_ordered with compare. */
    method InsertOrdered(xs: seq<Tid>, t: Tid, ghost prio: Total<Tid, int>) returns (r: seq<Tid>)
      requires Distinct() && PrioIs(prio) && Known(xs) && t in thread
      ensures r == Insert(prio, xs, t) && Known(r)
    {
      var i := 0;
      while i < |xs|
        invariant i <= |xs|
        invariant forall k :: 0 <= k < i ==> prio(xs[k]) >= prio(t)
      {
        var e := xs[i];
        assert e in xs;
        if thread[t].priority > thread[e].priority {
          break;
        }
        i := i + 1;
      }
      PlaceIs(prio, xs, t, i);
      InsertMembers(prio, xs, t);
      r := xs[..i] + [t] + xs[i..];
    }

    /** list_sort with compare. */
    method SortList(xs: seq<Tid>, ghost prio: Total<Tid, int>) returns (r: seq<Tid>)
      requires Distinct() && PrioIs(prio) && Known(xs)
      ensures r == Sort(prio, xs) && Known(r)
    {
      hide Sort, Insert, PrioIs, Known, Distinct;
      r := [];
      var i := 0;
      SortNone(prio, xs);
      while i < |xs|
        invariant i <= |xs| && r == Sort(prio, xs[..i]) && Known(r)
      {
        KnownAt(xs, i);
        SortNext(prio, xs, i);
        r := InsertOrdered(r, xs[i], prio);
        i := i + 1;
      }
      assert xs[..i] == xs;
    }

    lemma SortNone(prio: Total<Tid, int>, xs: seq<Tid>)
      ensures Sort(prio, xs[..0]) == [] && Known([])
    {
    }

    lemma KnownAt(xs: seq<Tid>, i: nat)
      requires i < |xs| && Known(xs)
      ensures xs[i] in thread
    {
      var t := xs[i];
      assert t in xs;
    }

    lemma KnownWithout(xs: seq<Tid>, i: nat)
      requires i < |xs| && Known(xs)
      ensures Known(Without(xs, i))
    {
    }

    // ---------- stores to one field ----------

    method SetStatus(t: Tid, v: M.Status, ghost f: Total<Tid, M.Status>)
      requires Distinct() && StatusIs(f) && t in thread
      modifies threads`status
      ensures StatusIs(Put(f, t, v))
    {
      thread[t].status := v;
    }

    method SetPriority(t: Tid, v: int, ghost y: M.Sync)
      requires Distinct() && SyncIs(y) && t in thread
      modifies threads`priority
      ensures SyncIs(y.(prio := Put(y.prio, t, v)))
    {
      hide StatusIs, WakeIs, PcIs, InitIs, WaitingIs, DonationsIs, ValueIs, WaitersIs, HolderIs, QueueIs, Known;
      thread[t].priority := v;
    }

    method SetInitPriority(t: Tid, v: int, ghost y: M.Sync)
      requires Distinct() && SyncIs(y) && t in thread
      modifies threads`initPriority
      ensures SyncIs(y.(init := Put(y.init, t, v)))
    {
      hide StatusIs, WakeIs, PrioIs, PcIs, WaitingIs, DonationsIs, ValueIs, WaitersIs, HolderIs, QueueIs, Known;
      thread[t].initPriority := v;
    }

    method SetWaitingLock(t: Tid, v: Option<M.LockId>, ghost y: M.Sync)
      requires Distinct() && SyncIs(y) && t in thread
      modifies threads`waitingLock
      ensures SyncIs(y.(waiting := Put(y.waiting, t, v)))
    {
      hide StatusIs, WakeIs, PrioIs, PcIs, InitIs, DonationsIs, ValueIs, WaitersIs, HolderIs, QueueIs, Known;
      thread[t].waitingLock := v;
    }

    method SetDonations(t: Tid, v: seq<Tid>, ghost y: M.Sync)
      requires Distinct() && SyncIs(y) && t in thread
      modifies threads`donations
      ensures SyncIs(y.(donations := Put(y.donations, t, v)))
    {
      hide StatusIs, WakeIs, PrioIs, PcIs, InitIs, WaitingIs, ValueIs, WaitersIs, HolderIs, QueueIs, Known;
      thread[t].donations := v;
    }

    method SetPc(t: Tid, v: M.Pc, ghost y: M.Sync)
      requires Distinct() && SyncIs(y) && t in thread
      modifies threads`pc
      ensures SyncIs(y.(pc := Put(y.pc, t, v)))
    {
      hide StatusIs, WakeIs, PrioIs, InitIs, WaitingIs, DonationsIs, ValueIs, WaitersIs, HolderIs, QueueIs, Known;
      thread[t].pc := v;
    }

    method SetValue(n: M.Sema, v: nat, ghost y: M.Sync)
      requires Distinct() && SyncIs(y) && n in sema
      modifies semas`value
      ensures SyncIs(y.(value := Put<M.Sema, nat>(y.value, n, v)))
    {
      hide StatusIs, WakeIs, PrioIs, PcIs, InitIs, WaitingIs, DonationsIs, WaitersIs, HolderIs, QueueIs, Known;
      sema[n].value := v;
    }

    method SetWaiters(n: M.Sema, v: seq<Tid>, ghost y: M.Sync)
      requires Distinct() && SyncIs(y) && n in sema
      modifies semas`waiters
      ensures SyncIs(y.(waiters := Put(y.waiters, n, v)))
    {
      hide StatusIs, WakeIs, PrioIs, PcIs, InitIs, WaitingIs, DonationsIs, ValueIs, HolderIs, QueueIs, Known;
      sema[n].waiters := v;
    }

    method SetHolder(l: M.LockId, v: Option<Tid>, ghost y: M.Sync)
      requires Distinct() && SyncIs(y) && l in lock
      modifies locks`holder
      ensures SyncIs(y.(holder := Put(y.holder, l, v)))
    {
      hide StatusIs, WakeIs, PrioIs, PcIs, InitIs, WaitingIs, DonationsIs, ValueIs, WaitersIs, QueueIs, Known;
      lock[l].holder := v;
    }

    method SetQueue(c: M.Cond, v: seq<Tid>, ghost y: M.Sync)
      requires Distinct() && SyncIs(y) && c in cond
      modifies conds`waiters
      ensures SyncIs(y.(queue := Put(y.queue, c, v)))
    {
      hide StatusIs, WakeIs, PrioIs, PcIs, InitIs, WaitingIs, DonationsIs, ValueIs, WaitersIs, HolderIs, Known;
      cond[c].waiters := v;
    }

    // ---------- thread.c ----------

    method NextThreadToRun(ghost c: M.Cpu, ghost prio: Total<Tid, int>) returns (next: Tid)
      requires Distinct() && CpuIs(c) && PrioIs(prio)
      modifies `ready
      ensures next in thread && Known(ready)
      ensures next == M.Schedule(c, prio).running && ready == M.Schedule(c, prio).ready
    {
      if ready == [] {
        next := idle;
      } else {
        ready := SortList(ready, prio);
        next := ready[0];
        assert next in ready;
        ready := ready[1..];
      }
    }

    method Schedule(ghost c: M.Cpu, ghost prio: Total<Tid, int>)
      requires Distinct() && CpuIs(c) && PrioIs(prio)
      modifies `ready, `running, `slice, threads`status
      ensures CpuIs(M.Schedule(c, prio))
    {
      hide StatusIs, WakeIs, PrioIs, Known, Distinct, Sort;
      var next := NextThreadToRun(c, prio);
      SetStatus(next, M.Running, c.status);
      running := next;
      slice := 0;
    }

    method ThreadBlock(ghost c: M.Cpu, ghost prio: Total<Tid, int>)
      requires Distinct() && CpuIs(c) && PrioIs(prio)
      modifies `ready, `running, `slice, threads`status
      ensures CpuIs(M.Block(c, prio))
    {
      hide StatusIs, WakeIs, PrioIs, Known, Distinct, M.Schedule;
      SetStatus(running, M.Blocked, c.status);
      Schedule(c.(status := Put(c.status, c.running, M.Blocked)), prio);
    }

    method ThreadUnblock(t: Tid, ghost c: M.Cpu, ghost prio: Total<Tid, int>)
      requires Distinct() && CpuIs(c) && PrioIs(prio) && t in thread
      modifies `ready, threads`status
      ensures CpuIs(M.Unblock(c, prio, t))
    {
      hide StatusIs, WakeIs, PrioIs, Known, Distinct, Insert;
      ready := InsertOrdered(ready, t, prio);
      SetStatus(t, M.Ready, c.status);
    }

    method ThreadYield(ghost c: M.Cpu, ghost prio: Total<Tid, int>)
      requires Distinct() && CpuIs(c) && PrioIs(prio)
      modifies `ready, `running, `slice, threads`status
      ensures CpuIs(M.YieldCpu(c, prio))
    {
      hide StatusIs, WakeIs, PrioIs, Known, Distinct, Insert, M.Schedule;
      if running != idle {
        ready := InsertOrdered(ready, running, prio);
      }
      SetStatus(running, M.Ready, c.status);
      Schedule(M.Requeue(c, prio), prio);
    }

    method StealRunningByPriority(ghost c: M.Cpu, ghost prio: Total<Tid, int>)
      requires Distinct() && CpuIs(c) && PrioIs(prio)
      modifies `ready, `running, `slice, threads`status
      ensures CpuIs(M.Steal(c, prio))
    {
      if ready != [] {
        var next, cur := ready[0], running;
        assert next in ready;
        if thread[next].priority > thread[cur].priority {
          ThreadYield(c, prio);
        }
      }
    }

    /** thread_toSleep and the thread_block of timer_sleep. */
    method TimerSleep(deadline: int, ghost c: M.Cpu, ghost prio: Total<Tid, int>)
      requires Distinct() && CpuIs(c) && PrioIs(prio)
      modifies `ready, `sleeping, `running, `slice, threads`status, threads`sleepingTicks
      ensures CpuIs(M.Act(c, prio, M.SleepIt(deadline)))
    {
      hide M.Block;
      var cur := running;
      thread[cur].sleepingTicks := deadline;
      sleeping := sleeping + [cur];
      ThreadBlock(c.(sleeping := c.sleeping + [c.running], wake := Put(c.wake, c.running, deadline)), prio);
    }

    /** list_remove of the element at i, and thread_unblock of its thread. */
    method WakeAt(i: nat, ghost c: M.Cpu, ghost prio: Total<Tid, int>)
      requires Distinct() && CpuIs(c) && PrioIs(prio) && i < |sleeping|
      modifies `ready, `sleeping, threads`status
      ensures i < |c.sleeping| && CpuIs(M.Unblock(c.(sleeping := Without(c.sleeping, i)), prio, c.sleeping[i]))
      ensures sleeping == Without(old(sleeping), i)
    {
      var t := sleeping[i];
      assert t in sleeping;
      sleeping := Without(sleeping, i);
      KnownWithout(c.sleeping, i);
      ThreadUnblock(t, c.(sleeping := sleeping), prio);
    }

    /** thread_awake: the loop removes the due threads from the list it walks. */
    method ThreadAwake(ghost c: M.Cpu, ghost prio: Total<Tid, int>)
      requires Distinct() && CpuIs(c) && PrioIs(prio)
      modifies `ready, `sleeping, threads`status
      ensures CpuIs(M.Awake(c, prio))
    {
      hide M.UnblockAll, M.Unblock, M.Awake, M.Due, M.NotDue, Filter, Insert, Walked, Without, StatusIs, PrioIs,
          Known, Distinct;
      ghost var all, k, woken := sleeping, 0, [];
      var i := 0;
      AwakeStart(c, prio);
      while i < |sleeping|
        invariant k <= |all| && i <= |sleeping| && Walked(M.NotDue(c), all, k, sleeping, i)
        invariant woken == Filter(M.Due(c), all[..k])
        invariant CpuIs(Awoken(c, prio, woken, sleeping))
        invariant PrioIs(prio)
        decreases |all| - k
      {
        var t := sleeping[i];
        WalkAt(M.NotDue(c), all, k, sleeping, i);
        AwokenFrame(c, prio, woken, sleeping);
        FilterNext(M.Due(c), all, k);
        KnownAt(sleeping, i);
        WakeAtIs(c, prio, woken, sleeping, t);
        DueIs(c, t);
        if thread[t].sleepingTicks <= ticks {
          WalkRemove(M.NotDue(c), all, k, sleeping, i);
          AwokenNext(c, prio, woken, sleeping, i);
          WakeAt(i, Awoken(c, prio, woken, sleeping), prio);
          woken := woken + [t];
        } else {
          WalkKeep(M.NotDue(c), all, k, sleeping, i);
          i := i + 1;
        }
        k := k + 1;
      }
      WalkEnd(M.NotDue(c), all, k, sleeping, i);
      assert all[..k] == all;
      AwokenEnd(c, prio);
    }

    lemma WakeAtIs(c: M.Cpu, prio: Total<Tid, int>, ts: seq<Tid>, xs: seq<Tid>, t: Tid)
      requires Distinct() && CpuIs(Awoken(c, prio, ts, xs)) && t in thread
      ensures thread[t].sleepingTicks == c.wake(t)
    {
      AwokenFrame(c, prio, ts, xs);
    }

    /** The clock and thread_tick; the result is whether the interrupt ends in a yield. */
    method ThreadTick(ghost c: M.Cpu) returns (yieldOnReturn: bool)
      requires CpuIs(c)
      modifies `slice, `ticks
      ensures CpuIs(Ticked(c)) && (yieldOnReturn <==> c.slice + 1 >= M.TIME_SLICE)
    {
      ticks := ticks + 1;
      slice := slice + 1;
      yieldOnReturn := slice >= M.TIME_SLICE;
    }

    /** timer_interrupt, with the yield on return that thread_tick asks for. */
    method TimerInterrupt(ghost c: M.Cpu, ghost prio: Total<Tid, int>)
      requires Distinct() && CpuIs(c) && PrioIs(prio)
      modifies `ready, `sleeping, `running, `slice, `ticks, threads`status
      ensures CpuIs(M.TimerTick(c, prio))
    {
      hide CpuIs, M.Awake, M.YieldCpu, M.TimerTick, Distinct, PrioIs;
      var yieldOnReturn := ThreadTick(c);
      ThreadAwake(Ticked(c), prio);
      TimerTickIs(c, prio);
      if yieldOnReturn {
        ThreadYield(M.Awake(Ticked(c), prio), prio);
      }
    }

    // ---------- synch.c ----------

    lemma ThreadAt(t: Tid, y: M.Sync)
      requires Distinct() && SyncIs(y) && t in thread
      ensures thread[t].pc == y.pc(t) && thread[t].priority == y.prio(t) && thread[t].initPriority == y.init(t)
      ensures thread[t].waitingLock == y.waiting(t) && thread[t].donations == y.donations(t)
    {
    }

    lemma SemaAt(n: M.Sema, y: M.Sync)
      requires Distinct() && SyncIs(y) && n in sema
      ensures sema[n].value == y.value(n) && sema[n].waiters == y.waiters(n)
    {
    }

    lemma RunningIs(c: M.Cpu)
      requires CpuIs(c)
      ensures running == c.running && running in thread
    {
    }

    lemma PrioOf(y: M.Sync)
      requires SyncIs(y)
      ensures PrioIs(y.prio)
    {
    }

    /** The caller joins the queue of n, and goes on inside thread_block. */
    method ParkOn(n: M.Sema, ghost c: M.Cpu, ghost y: M.Sync)
      requires Distinct() && CpuIs(c) && SyncIs(y) && n in sema && Known(y.waiters(n))
      modifies threads`pc, semas`waiters
      ensures SyncIs(M.ParkAt(y, c.running, n)) && CpuIs(c)
    {
      hide SyncIs, CpuIs, PrioIs, Known, Distinct, Insert;
      var cur := running;
      RunningIs(c);
      ThreadAt(cur, y);
      SemaAt(n, y);
      PrioOf(y);
      var q := InsertOrdered(sema[n].waiters, cur, y.prio);
      SetWaiters(n, q, y);
      SetPc(cur, M.Park(thread[cur].pc), M.ParkAt(y, cur, n).(pc := y.pc));
    }

    /** One test of the loop of sema_down: queue and block, or decrement. */
    method SemaDown(n: M.Sema, ghost c: M.Cpu, ghost y: M.Sync)
      requires Distinct() && CpuIs(c) && SyncIs(y) && n in sema && Known(y.waiters(n))
      modifies `ready, `running, `slice, threads`status, threads`pc, semas`value, semas`waiters
      ensures var (y', a) := M.Down(y, c.running, n); SyncIs(y') && CpuIs(M.Act(c, y.prio, a))
    {
      hide SyncIs, CpuIs, PrioIs, Known, Distinct, M.Block, Insert;
      var cur := running;
      RunningIs(c);
      ThreadAt(cur, y);
      SemaAt(n, y);
      if sema[n].value == 0 {
        ParkOn(n, c, y);
        PrioOf(M.ParkAt(y, cur, n));
        ThreadBlock(c, y.prio);
      } else {
        SetValue(n, sema[n].value - 1, y);
        SetPc(cur, M.AfterDown(thread[cur].pc), y.(value := Put<M.Sema, nat>(y.value, n, y.value(n) - 1)));
      }
    }

    /** sema_try_down, going on to got if it succeeds. */
    method SemaTryDown(n: M.Sema, got: M.Pc, ghost c: M.Cpu, ghost y: M.Sync) returns (success: bool)
      requires Distinct() && CpuIs(c) && SyncIs(y) && n in sema
      modifies threads`pc, semas`value
      ensures CpuIs(c) && SyncIs(M.Try(y, c.running, n, got))
      ensures success <==> y.value(n) > 0
    {
      hide SyncIs, CpuIs, PrioIs, Known, Distinct;
      var cur := running;
      RunningIs(c);
      SemaAt(n, y);
      success := sema[n].value > 0;
      if success {
        SetValue(n, sema[n].value - 1, y);
        SetPc(cur, got, y.(value := Put<M.Sema, nat>(y.value, n, y.value(n) - 1)));
      } else {
        SetPc(cur, M.User, y);
      }
    }

    /** list_sort, list_pop_front and thread_unblock in sema_up. */
    method WakeFirst(n: M.Sema, ghost c: M.Cpu, ghost y: M.Sync)
      requires Distinct() && CpuIs(c) && SyncIs(y) && n in sema && Known(y.waiters(n)) && y.waiters(n) != []
      modifies `ready, threads`status, semas`waiters
      ensures var q := Sort(y.prio, y.waiters(n));
              SyncIs(y.(waiters := Put(y.waiters, n, q[1..]))) && CpuIs(M.Unblock(c, y.prio, q[0]))
    {
      hide SyncIs, CpuIs, PrioIs, Known, Distinct, M.Unblock, Sort;
      SemaAt(n, y);
      PrioOf(y);
      var q := SortList(sema[n].waiters, y.prio);
      KnownAt(q, 0);
      SetWaiters(n, q[1..], y);
      ThreadUnblock(q[0], c, y.prio);
    }

    /** The end of sema_up: the increment and the preemption check. */
    method Increment(n: M.Sema, ghost c: M.Cpu, ghost y: M.Sync)
      requires Distinct() && CpuIs(c) && SyncIs(y) && n in sema
      modifies `ready, `running, `slice, threads`status, threads`pc, semas`value
      ensures SyncIs(y.(value := Put<M.Sema, nat>(y.value, n, y.value(n) + 1),
                        pc := Put(y.pc, c.running, M.AfterUp(y.pc(c.running)))))
      ensures CpuIs(M.Steal(c, y.prio))
    {
      hide SyncIs, CpuIs, PrioIs, Known, Distinct, M.Steal;
      var cur := running;
      RunningIs(c);
      SemaAt(n, y);
      ThreadAt(cur, y);
      SetValue(n, sema[n].value + 1, y);
      ghost var y' := y.(value := Put<M.Sema, nat>(y.value, n, y.value(n) + 1));
      SetPc(cur, M.AfterUp(thread[cur].pc), y');
      PrioOf(y'.(pc := Put(y'.pc, cur, M.AfterUp(y.pc(cur)))));
      StealRunningByPriority(c, y.prio);
    }

    method SemaUp(n: M.Sema, ghost c: M.Cpu, ghost y: M.Sync)
      requires Distinct() && CpuIs(c) && SyncIs(y) && n in sema && Known(y.waiters(n))
      modifies `ready, `running, `slice, threads`status, threads`pc, semas`value, semas`waiters
      ensures var (y', a) := M.Up(y, c.running, n); SyncIs(y') && CpuIs(M.Act(c, y.prio, a))
    {
      hide SyncIs, CpuIs, PrioIs, Known, Distinct, M.Steal, Sort;
      ghost var c', y' := c, y;
      SemaAt(n, y);
      if sema[n].waiters != [] {
        WakeFirst(n, c, y);
        ghost var q := Sort(y.prio, y.waiters(n));
        c', y' := M.Unblock(c, y.prio, q[0]), y.(waiters := Put(y.waiters, n, q[1..]));
      }
      Increment(n, c', y');
    }

    // ---------- priority donation ----------

    lemma LinkAt(t: Tid, y: M.Sync)
      requires Distinct() && SyncIs(y) && Linked(y) && t in thread
      ensures y.waiting(t).Some? ==> y.waiting(t).value in lock
      ensures y.waiting(t).Some? ==> HolderAt(y.waiting(t).value, y)
    {
    }

    ghost predicate HolderAt(l: M.LockId, y: M.Sync)
      reads locks`holder
    {
      && l in lock && lock[l] in locks && lock[l].holder == y.holder(l)
      && (y.holder(l).Some? ==> y.holder(l).value in thread)
    }

    lemma SamePrio(y: M.Sync, prio: Total<Tid, int>)
      requires SyncIs(y) && forall t :: prio(t) == y.prio(t)
      ensures SyncIs(y.(prio := prio))
    {
    }

    lemma SameWaiting(y: M.Sync, waiting: Total<Tid, Option<M.LockId>>)
      requires SyncIs(y) && forall t :: waiting(t) == y.waiting(t)
      ensures SyncIs(y.(waiting := waiting))
    {
    }

    /** One more store of donate_priority. */
    lemma RaiseOne(y: M.Sync, path: seq<Tid>, k: nat, p: int)
      requires k < |path|
      requires SyncIs(y.(prio := Put(M.Raise(y.prio, path[..k], p), path[k], p)))
      ensures SyncIs(y.(prio := M.Raise(y.prio, path[..k + 1], p)))
    {
      assert path[..k + 1] == path[..k] + [path[k]];
      SamePrio(y.(prio := Put(M.Raise(y.prio, path[..k], p), path[k], p)), M.Raise(y.prio, path[..k + 1], p));
    }

    lemma RaiseNone(y: M.Sync, path: seq<Tid>, p: int)
      requires SyncIs(y)
      ensures SyncIs(y.(prio := M.Raise(y.prio, path[..0], p)))
    {
      SamePrio(y, M.Raise(y.prio, path[..0], p));
    }

    /** donate_priority: walk from the holder of the awaited lock to the end of the chain. */
    method DonatePriority(cur: Tid, ghost y: M.Sync, ghost path: seq<Tid>)
      requires Distinct() && SyncIs(y) && Linked(y) && cur in thread
      requires y.waiting(cur).Some? && y.holder(y.waiting(cur).value).Some?
      requires M.IsChain(y.waiting, y.holder, y.holder(y.waiting(cur).value).value, path)
      modifies threads`priority
      ensures SyncIs(y.(prio := M.Raise(y.prio, path, y.prio(cur))))
    {
      hide SyncIs, PrioIs, Known, Distinct, Linked, M.IsChain;
      ghost var k, p := 0, y.prio(cur);
      ThreadAt(cur, y);
      LinkAt(cur, y);
      ChainStart(y, y.holder(y.waiting(cur).value).value, path);
      var lockHolder := lock[thread[cur].waitingLock.value].holder.value;
      RaiseNone(y, path, p);
      SetPriority(lockHolder, thread[cur].priority, y.(prio := M.Raise(y.prio, path[..0], p)));
      RaiseOne(y, path, 0, p);
      while thread[lockHolder].waitingLock != M.None
        invariant k < |path| && lockHolder == path[k] && lockHolder in thread
        invariant SyncIs(y.(prio := M.Raise(y.prio, path[..k + 1], p)))
        invariant M.IsChain(y.waiting, y.holder, path[k], path[k..])
        decreases |path| - k
      {
        ghost var yk := y.(prio := M.Raise(y.prio, path[..k + 1], p));
        ThreadAt(lockHolder, yk);
        ThreadAt(cur, yk);
        LinkedPrio(y, yk);
        LinkAt(lockHolder, yk);
        ChainAt(y, path, k);
        lockHolder := lock[thread[lockHolder].waitingLock.value].holder.value;
        SetPriority(lockHolder, thread[cur].priority, yk);
        k := k + 1;
        RaiseOne(y, path, k, p);
      }
      ThreadAt(lockHolder, y.(prio := M.Raise(y.prio, path[..k + 1], p)));
      ChainAt(y, path, k);
      assert path[..k + 1] == path;
    }

    lemma LinkedPrio(y: M.Sync, y': M.Sync)
      requires Linked(y) && y' == y.(prio := y'.prio)
      ensures Linked(y')
    {
    }

    /** reset_priority. */
    method ResetPriority(cur: Tid, ghost y: M.Sync)
      requires Distinct() && SyncIs(y) && cur in thread && Known(y.donations(cur))
      modifies threads`priority, threads`donations
      ensures SyncIs(M.Reset(y, cur))
    {
      hide SyncIs, CpuIs, PrioIs, Known, Distinct, Sort;
      ThreadAt(cur, y);
      SetPriority(cur, thread[cur].initPriority, y);
      ghost var y' := y.(prio := Put(y.prio, cur, y.init(cur)));
      ThreadAt(cur, y');
      PrioOf(y');
      if thread[cur].donations != [] {
        var q := SortList(thread[cur].donations, y'.prio);
        SetDonations(cur, q, y');
        y' := y'.(donations := Put(y.donations, cur, q));
        KnownAt(q, 0);
        ThreadAt(cur, y');
        ThreadAt(q[0], y');
        if thread[cur].priority < thread[q[0]].priority {
          SetPriority(cur, thread[q[0]].priority, y');
        }
      }
    }

    lemma FreedNone(y: M.Sync, r: Tid, l: M.LockId)
      requires SyncIs(y)
      ensures SyncIs(Freeing(y, r, l, 0, y.donations(r)))
      ensures Walked(M.Kept(y, r, l), y.donations(r), 0, y.donations(r), 0)
    {
      var y' := Freeing(y, r, l, 0, y.donations(r));
      SameWaiting(y, y'.waiting);
      forall t | t in threads ensures t.donations == y'.donations(t.tid) {
        if t.tid == r {
        } else {
        }
      }
    }

    lemma FreedAll(y: M.Sync, r: Tid, l: M.LockId, xs: seq<Tid>)
      requires SyncIs(Freeing(y, r, l, |y.donations(r)|, xs)) && xs == Filter(M.Kept(y, r, l), y.donations(r))
      ensures SyncIs(M.RemoveLock(y, r, l))
    {
      SameWaiting(Freeing(y, r, l, |y.donations(r)|, xs), M.RemoveLock(y, r, l).waiting);
    }

    lemma FreedNext(y: M.Sync, r: Tid, l: M.LockId, k: nat, xs: seq<Tid>)
      requires NoDup(y.donations(r)) && k < |y.donations(r)| && y.donations(r)[k] in M.Kept(y, r, l)
      requires SyncIs(Freeing(y, r, l, k, xs))
      ensures SyncIs(Freeing(y, r, l, k + 1, xs))
    {
      var all := y.donations(r);
      assert all[..k + 1] == all[..k] + [all[k]];
      SameWaiting(Freeing(y, r, l, k, xs), Freeing(y, r, l, k + 1, xs).waiting);
    }

    lemma FreedOne(y: M.Sync, r: Tid, l: M.LockId, k: nat, xs: seq<Tid>, ys: seq<Tid>)
      requires NoDup(y.donations(r)) && k < |y.donations(r)| && y.donations(r)[k] !in M.Kept(y, r, l)
      requires var yk := Freeing(y, r, l, k, xs);
               SyncIs(yk.(waiting := Put(yk.waiting, y.donations(r)[k], M.None), donations := Put(yk.donations, r, ys)))
      ensures SyncIs(Freeing(y, r, l, k + 1, ys))
    {
      var all, yk := y.donations(r), Freeing(y, r, l, k, xs);
      var t := all[k];
      assert all[..k + 1] == all[..k] + [t];
      assert t in all;
      SameFreeing(yk.(waiting := Put(yk.waiting, t, M.None), donations := Put(yk.donations, r, ys)), Freeing(y, r, l,
          k + 1, ys));
    }

    lemma SameFreeing(y: M.Sync, y': M.Sync)
      requires SyncIs(y) && y' == y.(waiting := y'.waiting, donations := y'.donations)
      requires forall t :: y.waiting(t) == y'.waiting(t) && y.donations(t) == y'.donations(t)
      ensures SyncIs(y')
    {
    }

    /** The body of the loop of remove_lock for a thread that waits for the lock. */
    method FreeDonor(cur: Tid, i: nat, ghost y: M.Sync)
      requires Distinct() && SyncIs(y) && cur in thread && i < |y.donations(cur)| && y.donations(cur)[i] in thread
      modifies threads`waitingLock, threads`donations
      ensures SyncIs(y.(waiting := Put(y.waiting, y.donations(cur)[i], M.None),
                        donations := Put(y.donations, cur, Without(y.donations(cur), i))))
    {
      hide SyncIs, Distinct;
      ThreadAt(cur, y);
      var t := thread[cur].donations[i];
      SetWaitingLock(t, M.None, y);
      ghost var y' := y.(waiting := Put(y.waiting, t, M.None));
      ThreadAt(cur, y');
      SetDonations(cur, Without(thread[cur].donations, i), y');
    }

    /** remove_lock: the loop removes elements from the list it walks. */
    method RemoveLock(cur: Tid, l: M.LockId, ghost y: M.Sync)
      requires Distinct() && SyncIs(y) && cur in thread && Known(y.donations(cur)) && NoDup(y.donations(cur))
      modifies threads`waitingLock, threads`donations
      ensures SyncIs(M.RemoveLock(y, cur, l))
    {
      hide SyncIs, CpuIs, PrioIs, Known, Distinct, Filter, Walked, Without, M.Kept, M.Freed, NoDup;
      ghost var all, k, keep := y.donations(cur), 0, M.Kept(y, cur, l);
      var i := 0;
      ThreadAt(cur, y);
      FreedNone(y, cur, l);
      while i < |thread[cur].donations|
        invariant k <= |all| && i <= |thread[cur].donations| && Walked(keep, all, k, thread[cur].donations, i)
        invariant SyncIs(Freeing(y, cur, l, k, thread[cur].donations))
        decreases |all| - k
      {
        ghost var now := thread[cur].donations;
        var t := thread[cur].donations[i];
        WalkAt(keep, all, k, now, i);
        KnownAt(all, k);
        ghost var yk := Freeing(y, cur, l, k, now);
        ThreadAt(t, yk);
        FreedIff(y, cur, l, k, now);
        if thread[t].waitingLock == M.Some(l) {
          WalkRemove(keep, all, k, now, i);
          FreeDonor(cur, i, yk);
          FreedOne(y, cur, l, k, now, Without(now, i));
          ThreadAt(cur, Freeing(y, cur, l, k + 1, Without(now, i)));
        } else {
          WalkKeep(keep, all, k, now, i);
          FreedNext(y, cur, l, k, now);
          i := i + 1;
        }
        k := k + 1;
      }
      WalkEnd(keep, all, k, thread[cur].donations, i);
      FreedAll(y, cur, l, thread[cur].donations);
    }

    // ---------- locks ----------

    lemma LockAt(l: M.LockId, y: M.Sync)
      requires Distinct() && SyncIs(y) && Linked(y) && l in lock
      ensures lock[l].holder == y.holder(l) && (y.holder(l).Some? ==> y.holder(l).value in thread)
      ensures M.OfLock(l) in sema && Known(y.waiters(M.OfLock(l)))
    {
    }

    /** lock_acquire up to its sema_down; with a holder, also the first test of sema_down. */
    method LockAcquire(l: M.LockId, ghost c: M.Cpu, ghost y: M.Sync, ghost path: seq<Tid>)
      requires Distinct() && CpuIs(c) && SyncIs(y) && Linked(y) && l in lock
      requires y.holder(l).Some? ==> M.IsChain(Put(y.waiting, c.running, M.Some(l)), y.holder, y.holder(l).value, path)
      modifies `ready, `running, `slice, threads`status, threads`pc, semas`value, semas`waiters
      modifies threads`waitingLock, threads`donations, threads`priority
      ensures var (y', a) := M.StartAcquire(y, c.running, l, path); SyncIs(y') && CpuIs(M.Act(c, y'.prio, a))
      ensures c.running in thread
      ensures y.holder(l) == M.None ==> running == c.running && thread[c.running].pc == M.LockDown(l, false)
    {
      hide SyncIs, CpuIs, PrioIs, Known, Distinct, Linked, M.Down, M.Act, M.Donate;
      var cur := running;
      RunningIs(c);
      LockAt(l, y);
      SetPc(cur, M.LockDown(l, false), y);
      ghost var y' := M.Move(y, cur, M.LockDown(l, false));
      match lock[l].holder {
        case None =>
          StayIs(c, y'.prio);
          ThreadAt(cur, y');
        case Some(h) =>
          LinkedMove(y, cur, l);
          DonateTo(h, l, c, y', path);
          DonateIs(c, y', cur, l, h, path);
          SemaDown(M.OfLock(l), c, M.Donate(y', cur, l, h, path));
          DownKeepsPrio(M.Donate(y', cur, l, h, path), cur, M.OfLock(l));
      }
    }

    lemma LinkedMove(y: M.Sync, t: Tid, l: M.LockId)
      requires Linked(y) && l in lock
      ensures Linked(M.Move(y, t, M.LockDown(l, false)))
    {
    }

    /** The stores of lock_acquire for a lock that h holds. */
    method DonateTo(h: Tid, l: M.LockId, ghost c: M.Cpu, ghost y: M.Sync, ghost path: seq<Tid>)
      requires Distinct() && CpuIs(c) && SyncIs(y) && Linked(y) && l in lock && y.holder(l) == M.Some(h)
      requires M.IsChain(Put(y.waiting, c.running, M.Some(l)), y.holder, h, path)
      modifies threads`waitingLock, threads`donations, threads`priority
      ensures SyncIs(M.Donate(y, c.running, l, h, path)) && CpuIs(c)
    {
      hide SyncIs, CpuIs, PrioIs, Known, Distinct, Linked, Insert, M.IsChain;
      var cur := running;
      RunningIs(c);
      LockAt(l, y);
      ghost var y2 := JoinDonors(h, l, c, y);
      LinkedDonate(y, cur, l, h, y2.donations(h));
      DonatePriority(cur, y2, path);
    }

    /** The caller's wait, and its place among h's donors. */
    method JoinDonors(h: Tid, l: M.LockId, ghost c: M.Cpu, ghost y: M.Sync) returns (ghost y2: M.Sync)
      requires Distinct() && CpuIs(c) && SyncIs(y) && Linked(y) && h in thread
      modifies threads`waitingLock, threads`donations
      ensures y2 == y.(waiting := Put(y.waiting, c.running, M.Some(l)),
                       donations := Put(y.donations, h, Insert(y.prio, y.donations(h), c.running)))
      ensures SyncIs(y2) && CpuIs(c) && Known(y2.donations(h))
    {
      hide SyncIs, CpuIs, PrioIs, Known, Distinct, Linked, Insert;
      var cur := running;
      RunningIs(c);
      SetWaitingLock(cur, M.Some(l), y);
      ghost var y1 := y.(waiting := Put(y.waiting, cur, M.Some(l)));
      ThreadAt(h, y1);
      DonorsKnown(h, y);
      PrioOf(y1);
      var q := InsertOrdered(thread[h].donations, cur, y.prio);
      SetDonations(h, q, y1);
      y2 := y1.(donations := Put(y.donations, h, q));
    }

    lemma DonorsKnown(h: Tid, y: M.Sync)
      requires Linked(y) && h in thread
      ensures Known(y.donations(h))
    {
    }

    lemma LinkedDonate(y: M.Sync, t: Tid, l: M.LockId, h: Tid, q: seq<Tid>)
      requires Linked(y) && l in lock && Known(q)
      ensures Linked(y.(waiting := Put(y.waiting, t, M.Some(l)), donations := Put(y.donations, h, q)))
    {
    }

    /** The last stores of lock_acquire, or the last of lock_try_acquire. */
    method LockAcquired(l: M.LockId, tried: bool, ghost c: M.Cpu, ghost y: M.Sync)
      requires Distinct() && CpuIs(c) && SyncIs(y) && l in lock
      modifies threads`pc, threads`waitingLock, locks`holder
      ensures SyncIs(M.SetHolder(y, c.running, l, tried)) && CpuIs(c)
    {
      hide SyncIs, CpuIs, PrioIs, Known, Distinct, Linked;
      ghost var y' := y;
      var cur := running;
      RunningIs(c);
      if !tried {
        SetWaitingLock(cur, M.None, y);
        y' := y.(waiting := Put(y.waiting, cur, M.None));
      }
      SetHolder(l, M.Some(cur), y');
      SetPc(cur, M.User, y'.(holder := Put(y.holder, l, M.Some(cur))));
    }

    /** lock_release before its sema_up. */
    method LockRelease(l: M.LockId, next: M.Then, ghost c: M.Cpu, ghost y: M.Sync)
      requires Distinct() && CpuIs(c) && SyncIs(y) && Linked(y) && l in lock && NoDup(y.donations(c.running))
      modifies threads`pc, locks`holder, threads`waitingLock, threads`donations, threads`priority
      ensures SyncIs(M.Unhold(y, c.running, l, next)) && CpuIs(c)
    {
      hide SyncIs, CpuIs, PrioIs, Known, Distinct, Linked, M.RemoveLock, M.Reset;
      var cur := running;
      RunningIs(c);
      DonorsKnown(cur, y);
      SetHolder(l, M.None, y);
      SetPc(cur, M.ReleaseUp(l, next), y.(holder := Put(y.holder, l, M.None)));
      ghost var y' := y.(holder := Put(y.holder, l, M.None), pc := Put(y.pc, cur, M.ReleaseUp(l, next)));
      RemoveLock(cur, l, y');
      KeptKnown(cur, l, y');
      ResetPriority(cur, M.RemoveLock(y', cur, l));
    }

    lemma KeptKnown(t: Tid, l: M.LockId, y: M.Sync)
      requires Known(y.donations(t))
      ensures Known(M.RemoveLock(y, t, l).donations(t))
    {
      FilterMembers(M.Kept(y, t, l), y.donations(t));
    }

    /** The stores of thread_set_priority. */
    method SetPriorities(cur: Tid, priority: int, ghost y: M.Sync)
      requires Distinct() && SyncIs(y) && cur in thread
      modifies threads`pc, threads`priority, threads`initPriority
      ensures SyncIs(Prioritized(y, cur, priority))
    {
      hide SyncIs, Distinct;
      SetPriority(cur, priority, y);
      SetInitPriority(cur, priority, y.(prio := Put(y.prio, cur, priority)));
      SetPc(cur, M.User, y.(prio := Put(y.prio, cur, priority), init := Put(y.init, cur, priority)));
    }

    method ThreadSetPriority(priority: int, ghost c: M.Cpu, ghost y: M.Sync)
      requires Distinct() && CpuIs(c) && SyncIs(y) && Linked(y)
      modifies `ready, `running, `slice, threads`status
      modifies threads`pc, threads`priority, threads`initPriority, threads`donations
      ensures var y' := M.Assign(y, c.running, priority); SyncIs(y') && CpuIs(M.Act(c, y'.prio, M.WakeUp(M.None)))
    {
      hide SyncIs, CpuIs, PrioIs, Known, Distinct, Linked, M.Steal, M.Reset;
      var cur := running;
      RunningIs(c);
      DonorsKnown(cur, y);
      SetPriorities(cur, priority, y);
      ghost var y' := Prioritized(y, cur, priority);
      ResetPriority(cur, y');
      PrioOf(M.Reset(y', cur));
      StealRunningByPriority(c, M.Reset(y', cur).prio);
    }

    // ---------- condition variables ----------

    lemma CondAt(cv: M.Cond, y: M.Sync)
      requires Distinct() && SyncIs(y) && Linked(y) && cv in cond
      ensures cond[cv].waiters == y.queue(cv) && Known(y.queue(cv))
    {
    }

    /** cond_wait before its lock_release. The insertion compares against the new
        and still empty semaphore, so that place may be any position. */
    method CondWait(cv: M.Cond, place: nat, ghost c: M.Cpu, ghost y: M.Sync)
      requires Distinct() && CpuIs(c) && SyncIs(y) && Linked(y) && cv in cond && place <= |y.queue(cv)|
      modifies threads`pc, semas`value, semas`waiters, conds`waiters
      ensures SyncIs(M.StartWait(y, c.running, cv, y.queue(cv)[..place] + [c.running] + y.queue(cv)[place..]))
          && CpuIs(c)
    {
      hide SyncIs, CpuIs, PrioIs, Known, Distinct, Linked;
      var cur := running;
      RunningIs(c);
      CondAt(cv, y);
      SemaOf(cur, y);
      var q := cond[cv].waiters[..place] + [cur] + cond[cv].waiters[place..];
      SetValue(M.OfWaiter(cur), 0, y);
      SetWaiters(M.OfWaiter(cur), [], y.(value := Put<M.Sema, nat>(y.value, M.OfWaiter(cur), 0)));
      ghost var y' := y.(value := Put<M.Sema, nat>(y.value, M.OfWaiter(cur), 0), waiters := Put(y.waiters,
          M.OfWaiter(cur), []));
      SetQueue(cv, q, y');
      SetPc(cur, M.Release(cv.lock, M.WaitOn(cv)), y'.(queue := Put(y.queue, cv, q)));
    }

    lemma SemaOf(t: Tid, y: M.Sync)
      requires Linked(y) && t in thread
      ensures M.OfWaiter(t) in sema
    {
    }

    /** list_sort with compare_sema. Once every waiter is at the front of its own
        semaphore this compares their priorities; before that it may yield any order. */
    method SortWaiters(cv: M.Cond, garbled: seq<Tid>, ghost y: M.Sync) returns (q: seq<Tid>)
      requires Distinct() && SyncIs(y) && Linked(y) && cv in cond && multiset(garbled) == multiset(y.queue(cv))
      ensures M.SortedQueue(y, cv, q)
    {
      q := cond[cv].waiters;
      CondAt(cv, y);
      PrioOf(y);
      SemasOf(q, y);
      if forall t :: t in q ==> sema[M.OfWaiter(t)].waiters == [t] {
        q := SortList(q, y.prio);
        assert multiset(q) == multiset(y.queue(cv));
      } else {
        q := garbled;
      }
    }

    lemma SemasOf(ts: seq<Tid>, y: M.Sync)
      requires Distinct() && SyncIs(y) && Linked(y) && Known(ts)
      ensures forall t :: t in ts ==> M.OfWaiter(t) in sema && sema[M.OfWaiter(t)].waiters == y.waiters(M.OfWaiter(t))
    {
    }

    /** cond_signal before its sema_up. */
    method CondSignal(cv: M.Cond, more: bool, garbled: seq<Tid>, ghost c: M.Cpu, ghost y: M.Sync)
        returns (ghost order: seq<Tid>)
      requires Distinct() && CpuIs(c) && SyncIs(y) && Linked(y) && cv in cond
          && multiset(garbled) == multiset(y.queue(cv))
      modifies threads`pc, conds`waiters
      ensures M.SortedQueue(y, cv, order) && SyncIs(M.StartSignal(y, c.running, cv, more, order)) && CpuIs(c)
    {
      hide SyncIs, CpuIs, PrioIs, Known, Distinct, Linked, M.SortedQueue;
      var cur := running;
      RunningIs(c);
      CondAt(cv, y);
      if cond[cv].waiters != [] {
        var q := SortWaiters(cv, garbled, y);
        order := q;
        SortedQueueSize(y, cv, q);
        SetQueue(cv, q[1..], y);
        SetPc(cur, M.SignalUp(cv, q[0], more), y.(queue := Put(y.queue, cv, q[1..])));
      } else {
        order := [];
        SortedQueueNone(y, cv);
        SetPc(cur, if more then M.Broadcast(cv) else M.User, y);
      }
    }

    /** The loop test of cond_broadcast. */
    method CondBroadcast(cv: M.Cond, ghost c: M.Cpu, ghost y: M.Sync)
      requires Distinct() && CpuIs(c) && SyncIs(y) && Linked(y) && cv in cond
      modifies threads`pc
      ensures SyncIs(M.Move(y, c.running, if y.queue(cv) == [] then M.User else M.Signal(cv, true))) && CpuIs(c)
    {
      hide SyncIs, CpuIs, PrioIs, Known, Distinct, Linked;
      RunningIs(c);
      CondAt(cv, y);
      SetPc(running, if cond[cv].waiters == [] then M.User else M.Signal(cv, true), y);
    }

    // ---------- whole steps ----------

    /** What Run needs besides the state: the walk of donate_priority, if there is
        one, and an outcome for each comparison with an empty semaphore. */
    ghost predicate Choices(y: M.Sync, r: Tid, path: seq<Tid>, place: nat, garbled: seq<Tid>) {
      match y.pc(r)
      case User => false
      case Acquire(l) =>
        y.holder(l).Some? ==> M.IsChain(Put(y.waiting, r, M.Some(l)), y.holder, y.holder(l).value, path)
      case CondWait(cv) => place <= |y.queue(cv)|
      case Signal(cv, _) => multiset(garbled) == multiset(y.queue(cv))
      case _ => true
    }

    lemma StepShown(s: M.State, path: seq<Tid>, order: seq<Tid>, y': M.Sync, a: M.Action)
      requires M.Exec(s.sync, s.cpu.running, path, order) == (y', a)
      requires SyncIs(y') && CpuIs(M.Act(s.cpu, y'.prio, a))
      ensures Shows(M.Step(s, M.Run(path, order)))
    {
    }

    lemma StayShown(s: M.State, path: seq<Tid>, order: seq<Tid>, y': M.Sync)
      requires M.Exec(s.sync, s.cpu.running, path, order) == (y', M.Stay)
      requires SyncIs(y') && CpuIs(s.cpu)
      ensures Shows(M.Step(s, M.Run(path, order)))
    {
    }

    lemma ObjectsOf(t: Tid, y: M.Sync)
      requires Linked(y) && t in thread
      ensures PcLinked(t, y.pc(t)) && M.OfWaiter(t) in sema
      ensures forall n :: n in sema ==> Known(y.waiters(n))
      ensures forall l :: l in lock ==> M.OfLock(l) in sema
      ensures y.pc(t).SignalUp? ==> M.OfWaiter(y.pc(t).chosen) in sema
    {
    }

    lemma DownShown(s: M.State, path: seq<Tid>, n: M.Sema)
      requires M.DownOn(s.cpu.running, s.sync.pc(s.cpu.running)) == M.Some(n)
      requires var (y', a) := M.Down(s.sync, s.cpu.running, n); SyncIs(y') && CpuIs(M.Act(s.cpu, s.sync.prio, a))
      ensures Shows(M.Step(s, M.Run(path, [])))
    {
      hide SyncIs, CpuIs, M.Act;
      DownKeepsPrio(s.sync, s.cpu.running, n);
      var (y', a) := M.Down(s.sync, s.cpu.running, n);
      StepShown(s, path, [], y', a);
    }

    lemma UpShown(s: M.State, path: seq<Tid>, n: M.Sema)
      requires M.UpOn(s.sync.pc(s.cpu.running)) == M.Some(n)
      requires var (y', a) := M.Up(s.sync, s.cpu.running, n); SyncIs(y') && CpuIs(M.Act(s.cpu, s.sync.prio, a))
      ensures Shows(M.Step(s, M.Run(path, [])))
    {
      hide SyncIs, CpuIs, M.Act;
      var (y', a) := M.Up(s.sync, s.cpu.running, n);
      StepShown(s, path, [], y', a);
    }

    method RunYield(ghost s: M.State, ghost path: seq<Tid>)
      requires Distinct() && Shows(s) && s.sync.pc(s.cpu.running) == M.Yield
      modifies `ready, `running, `slice, threads`status, threads`pc
      ensures Shows(M.Step(s, M.Run(path, [])))
    {
      hide SyncIs, CpuIs, PrioIs, Distinct, M.YieldCpu;
      ghost var c, y := s.cpu, s.sync;
      RunningIs(c);
      SetPc(running, M.User, y);
      ghost var y' := y.(pc := Put(y.pc, c.running, M.User));
      PrioOf(y');
      ThreadYield(c, y.prio);
      StepShown(s, path, [], y', M.YieldIt);
    }

    method RunSleep(deadline: int, ghost s: M.State, ghost path: seq<Tid>)
      requires Distinct() && Shows(s) && s.sync.pc(s.cpu.running) == M.Sleep(deadline)
      modifies `ready, `sleeping, `running, `slice, threads`status, threads`sleepingTicks, threads`pc
      ensures Shows(M.Step(s, M.Run(path, [])))
    {
      hide SyncIs, CpuIs, PrioIs, Distinct, M.Act;
      ghost var c, y := s.cpu, s.sync;
      RunningIs(c);
      SetPc(running, M.Asleep, y);
      ghost var y' := y.(pc := Put(y.pc, c.running, M.Asleep));
      PrioOf(y');
      TimerSleep(deadline, c, y.prio);
      StepShown(s, path, [], y', M.SleepIt(deadline));
    }

    /** The idle thread blocks. */
    method RunIdle(ghost s: M.State, ghost path: seq<Tid>)
      requires Distinct() && Shows(s) && s.sync.pc(s.cpu.running) == M.IdleLoop
      modifies `ready, `running, `slice, threads`status
      ensures Shows(M.Step(s, M.Run(path, [])))
    {
      hide SyncIs, CpuIs, PrioIs, Distinct, M.Block;
      PrioOf(s.sync);
      ThreadBlock(s.cpu, s.sync.prio);
      StepShown(s, path, [], s.sync, M.BlockIt);
    }

    lemma DonorsOnce(s: M.State)
      requires Inv(s)
      ensures NoDup(s.sync.donations(s.cpu.running))
    {
    }

    lemma RunEnabled(s: M.State, path: seq<Tid>, place: nat, garbled: seq<Tid>, order: seq<Tid>)
      requires Choices(s.sync, s.cpu.running, path, place, garbled)
      requires match s.sync.pc(s.cpu.running)
               case CondWait(cv) => order == s.sync.queue(cv)[..place] + [s.cpu.running] + s.sync.queue(cv)[place..]
               case Signal(cv, _) => M.SortedQueue(s.sync, cv, order)
               case _ => true
      ensures M.Enabled(s, M.Run(path, order))
    {
    }

    lemma RemoveLockLinked(y: M.Sync, r: Tid, l: M.LockId)
      requires Linked(y) && r in thread
      ensures Linked(M.RemoveLock(y, r, l))
    {
      KeptKnown(r, l, y);
    }

    lemma ResetLinked(y: M.Sync, r: Tid)
      requires Linked(y) && r in thread
      ensures Linked(M.Reset(y, r))
    {
      var prio := Put(y.prio, r, y.init(r));
      SortMembers(prio, y.donations(r));
    }

    lemma DownLinked(y: M.Sync, r: Tid, n: M.Sema)
      requires Linked(y) && r in thread && n in sema && M.DownOn(r, y.pc(r)) == M.Some(n)
      ensures Linked(M.Down(y, r, n).0)
    {
      hide Insert;
      InsertMembers(y.prio, y.waiters(n), r);
      assert PcLinked(r, y.pc(r));
    }

    lemma UpLinked(y: M.Sync, r: Tid, n: M.Sema)
      requires Linked(y) && r in thread && n in sema
      ensures Linked(M.Up(y, r, n).0)
    {
      hide Sort;
      SortMembers(y.prio, y.waiters(n));
      assert PcLinked(r, y.pc(r));
      assert PcLinked(r, M.AfterUp(y.pc(r)));
    }

    lemma MoveLinked(y: M.Sync, y': M.Sync, r: Tid, q: M.Pc)
      requires Linked(y) && r in thread && PcLinked(r, q) && y'.pc == Put(y.pc, r, q)
      requires y'.donations == y.donations && y'.waiting == y.waiting && y'.waiters == y.waiters
      requires y'.holder == y.holder && y'.queue == y.queue
      ensures Linked(y')
    {
    }

    lemma OwnLinked(y: M.Sync, r: Tid, l: M.LockId, tried: bool)
      requires Linked(y) && r in thread && l in lock
      ensures Linked(M.SetHolder(y, r, l, tried))
    {
    }

    lemma WaitLinked(y: M.Sync, r: Tid, cv: M.Cond, order: seq<Tid>)
      requires Linked(y) && r in thread && cv in cond && M.InsertedAnywhere(y.queue(cv), r, order)
      ensures Linked(M.StartWait(y, r, cv, order))
    {
    }

    lemma AssignLinked(y: M.Sync, r: Tid, p: int)
      requires Linked(y) && r in thread
      ensures Linked(M.Assign(y, r, p))
    {
      hide M.Reset, Linked;
      var y' := y.(pc := Put(y.pc, r, M.User), prio := Put(y.prio, r, p), init := Put(y.init, r, p));
      MoveLinked(y, y', r, M.User);
      ResetLinked(y', r);
    }

    lemma DonateLinked(y: M.Sync, r: Tid, l: M.LockId, h: Tid, path: seq<Tid>)
      requires Linked(y) && r in thread && l in lock && h in thread
      ensures Linked(M.Donate(y, r, l, h, path))
    {
      InsertMembers(y.prio, y.donations(h), r);
    }

    lemma AcquireLinked(y: M.Sync, r: Tid, l: M.LockId, path: seq<Tid>)
      requires Linked(y) && r in thread && l in lock
      ensures Linked(M.StartAcquire(y, r, l, path).0)
    {
      hide Linked, M.Donate, M.Down;
      var y' := M.Move(y, r, M.LockDown(l, false));
      LinkedMove(y, r, l);
      if y.holder(l).Some? {
        var h := y.holder(l).value;
        LockLinked(y, l);
        DonateLinked(y', r, l, h, path);
        DonateKeepsPc(y', r, l, h, path);
        DownLinked(M.Donate(y', r, l, h, path), r, M.OfLock(l));
      }
    }

    lemma LockLinked(y: M.Sync, l: M.LockId)
      requires Linked(y) && l in lock
      ensures M.OfLock(l) in sema && (y.holder(l).Some? ==> y.holder(l).value in thread)
    {
    }

    lemma UnholdLinked(y: M.Sync, r: Tid, l: M.LockId, next: M.Then)
      requires Linked(y) && r in thread && y.pc(r) == M.Release(l, next)
      ensures Linked(M.Unhold(y, r, l, next))
    {
      hide M.RemoveLock, M.Reset;
      var y' := y.(holder := Put(y.holder, l, M.None), pc := Put(y.pc, r, M.ReleaseUp(l, next)));
      assert PcLinked(r, y.pc(r));
      RemoveLockLinked(y', r, l);
      ResetLinked(M.RemoveLock(y', r, l), r);
    }

    lemma SignalLinked(y: M.Sync, r: Tid, cv: M.Cond, more: bool, order: seq<Tid>)
      requires Linked(y) && r in thread && cv in cond && M.SortedQueue(y, cv, order)
      ensures Linked(M.StartSignal(y, r, cv, more, order))
    {
      hide Sort, M.Queued;
      SameMembers(order, y.queue(cv));
      if order != [] {
        assert order[0] in order;
      }
    }

    /** A step names no objects but those that exist. */
    lemma LinkedKeeps(y: M.Sync, r: Tid, path: seq<Tid>, order: seq<Tid>)
      requires Linked(y) && r in thread && M.CanRun(y, r, path, order)
      ensures Linked(M.Exec(y, r, path, order).0)
    {
      hide Linked, M.Down, M.Up, M.StartAcquire, M.SetHolder, M.Unhold, M.StartWait, M.StartSignal, M.Assign,
        M.SortedQueue, M.IsChain, M.InsertedAnywhere;
      ObjectsOf(r, y);
      match y.pc(r) {
        case PlainDown(n, _) => DownLinked(y, r, M.Named(n));
        case LockDown(l, _) => DownLinked(y, r, M.OfLock(l));
        case WaitDown(_, _) => DownLinked(y, r, M.OfWaiter(r));
        case PlainUp(n) => UpLinked(y, r, M.Named(n));
        case ReleaseUp(l, _) => UpLinked(y, r, M.OfLock(l));
        case SignalUp(_, t, _) => UpLinked(y, r, M.OfWaiter(t));
        case Acquire(l) => AcquireLinked(y, r, l, path);
        case Own(l, tried) => OwnLinked(y, r, l, tried);
        case Release(l, next) => UnholdLinked(y, r, l, next);
        case CondWait(cv) => WaitLinked(y, r, cv, order);
        case Signal(cv, more) => SignalLinked(y, r, cv, more, order);
        case SetPriority(p) => AssignLinked(y, r, p);
        case IdleLoop =>
        case _ =>
          var y' := M.Exec(y, r, path, order).0;
          MoveLinked(y, y', r, y'.pc(r));
      }
    }

    /** The running thread goes on to its next switching point. */
    method Run(place: nat, garbled: seq<Tid>, ghost s: M.State, ghost path: seq<Tid>) returns (ghost order: seq<Tid>)
      requires Distinct() && Shows(s) && Linked(s.sync) && Inv(s)
      requires Choices(s.sync, s.cpu.running, path, place, garbled)
      modifies `ready, `sleeping, `running, `slice, threads, semas, locks, conds
      ensures M.Enabled(s, M.Run(path, order)) && Shows(M.Step(s, M.Run(path, order)))
      ensures Linked(M.Step(s, M.Run(path, order)).sync)
    {
      hide SyncIs, CpuIs, PrioIs, Known, Distinct, Linked, Inv, M.CanRun, M.Act, M.Down, M.Up, M.Try, M.StartAcquire,
          M.SetHolder, M.Unhold, M.Assign, M.StartWait, M.StartSignal, M.SortedQueue, M.IsChain;
      order := [];
      ghost var c, y := s.cpu, s.sync;
      var cur := running;
      RunningIs(c);
      ThreadAt(cur, y);
      ObjectsOf(cur, y);
      match thread[cur].pc {
        case User =>
        case PlainDown(n, _) =>
          SemaDown(M.Named(n), c, y);
          DownShown(s, path, M.Named(n));
        case LockDown(l, _) =>
          SemaDown(M.OfLock(l), c, y);
          DownShown(s, path, M.OfLock(l));
        case WaitDown(_, _) =>
          SemaDown(M.OfWaiter(cur), c, y);
          DownShown(s, path, M.OfWaiter(cur));
        case PlainUp(n) =>
          SemaUp(M.Named(n), c, y);
          UpShown(s, path, M.Named(n));
        case ReleaseUp(l, _) =>
          SemaUp(M.OfLock(l), c, y);
          UpShown(s, path, M.OfLock(l));
        case SignalUp(_, t, _) =>
          SemaUp(M.OfWaiter(t), c, y);
          UpShown(s, path, M.OfWaiter(t));
        case PlainTry(n) =>
          var _ := SemaTryDown(M.Named(n), M.User, c, y);
          StayShown(s, path, order, M.Try(y, cur, M.Named(n), M.User));
        case TryAcquire(l) =>
          var _ := SemaTryDown(M.OfLock(l), M.Own(l, true), c, y);
          StayShown(s, path, order, M.Try(y, cur, M.OfLock(l), M.Own(l, true)));
        case Acquire(l) =>
          LockAcquire(l, c, y, path);
          var (y', a) := M.StartAcquire(y, cur, l, path);
          StepShown(s, path, order, y', a);
        case Own(l, tried) =>
          LockAcquired(l, tried, c, y);
          StayShown(s, path, order, M.SetHolder(y, cur, l, tried));
        case Release(l, next) =>
          DonorsOnce(s);
          LockRelease(l, next, c, y);
          StayShown(s, path, order, M.Unhold(y, cur, l, next));
        case CondWait(cv) =>
          CondWait(cv, place, c, y);
          order := y.queue(cv)[..place] + [cur] + y.queue(cv)[place..];
          StayShown(s, path, order, M.StartWait(y, cur, cv, order));
        case Signal(cv, more) =>
          order := CondSignal(cv, more, garbled, c, y);
          StayShown(s, path, order, M.StartSignal(y, cur, cv, more, order));
        case Broadcast(cv) =>
          CondBroadcast(cv, c, y);
          StayShown(s, path, order, M.Move(y, cur, if y.queue(cv) == [] then M.User else M.Signal(cv, true)));
        case SetPriority(p) =>
          ThreadSetPriority(p, c, y);
          StepShown(s, path, order, M.Assign(y, cur, p), M.WakeUp(M.None));
        case Yield => RunYield(s, path);
        case Sleep(d) => RunSleep(d, s, path);
        case Asleep =>
          SetPc(cur, M.User, y);
          StayShown(s, path, order, M.Move(y, cur, M.User));
        case IdleLoop => RunIdle(s, path);
      }
      RunEnabled(s, path, place, garbled, order);
      LinkedKeeps(y, cur, path, order);
    }

    /** The running thread enters a primitive. */
    method Enter(op: M.Pc, ghost s: M.State)
      requires Distinct() && Shows(s) && Linked(s.sync) && M.Enabled(s, M.Call(op)) && PcLinked(running, op)
      modifies threads`pc
      ensures Shows(M.Step(s, M.Call(op))) && Linked(M.Step(s, M.Call(op)).sync)
    {
      hide SyncIs, CpuIs, Distinct, Linked;
      RunningIs(s.cpu);
      SetPc(running, op, s.sync);
      MoveLinked(s.sync, M.Move(s.sync, running, op), running, op);
    }

    method Tick(ghost s: M.State)
      requires Distinct() && Shows(s) && Linked(s.sync)
      modifies `ready, `sleeping, `running, `slice, `ticks, threads`status
      ensures Shows(M.Step(s, M.Tick)) && Linked(M.Step(s, M.Tick).sync)
    {
      hide SyncIs, CpuIs, PrioIs, Distinct, Linked, M.TimerTick;
      PrioOf(s.sync);
      TimerInterrupt(s.cpu, s.sync.prio);
    }

    /** thread_create, once its arguments have passed: it fails if there is no page for t. */
    method ThreadCreate(t: Tid, priority: int, ghost s: M.State) returns (created: bool)
      requires Distinct() && Shows(s) && Linked(s.sync) && M.Enabled(s, M.Create(t, priority))
      modifies `ready, `running, `slice, threads
      ensures created <==> t in thread
      ensures var s' := if created then M.Step(s, M.Create(t, priority)) else s; Shows(s') && Linked(s'.sync)
    {
      hide SyncIs, CpuIs, PrioIs, Distinct, Linked, M.StartThread;
      created := t in thread;
      if created {
        InitThread(t, priority, s.sync);
        ghost var y' := M.AddThread(s.sync, t, priority);
        PrioOf(y');
        StartThread(t, s.cpu, y');
        AddLinked(s.sync, t, priority);
      }
    }

    /** init_thread. */
    method InitThread(t: Tid, priority: int, ghost y: M.Sync)
      requires Distinct() && SyncIs(y) && t in thread
      modifies threads`pc, threads`priority, threads`initPriority, threads`waitingLock, threads`donations
      ensures SyncIs(M.AddThread(y, t, priority))
    {
      hide SyncIs, Distinct;
      SetPc(t, M.User, y);
      ghost var y' := y.(pc := Put(y.pc, t, M.User));
      SetPriority(t, priority, y');
      y' := y'.(prio := Put(y.prio, t, priority));
      SetInitPriority(t, priority, y');
      y' := y'.(init := Put(y.init, t, priority));
      SetWaitingLock(t, M.None, y');
      y' := y'.(waiting := Put(y.waiting, t, M.None));
      SetDonations(t, [], y');
      y' := y'.(donations := Put(y.donations, t, []));
      OneMoreThread(y', t);
    }

    lemma OneMoreThread(y: M.Sync, t: Tid)
      requires SyncIs(y) && t in thread
      ensures SyncIs(y.(threads := y.threads + {t}))
    {
    }

    lemma AddLinked(y: M.Sync, t: Tid, p: int)
      requires Linked(y)
      ensures Linked(M.AddThread(y, t, p))
    {
    }

    /** thread_unblock and the preemption test of thread_create. */
    method StartThread(t: Tid, ghost c: M.Cpu, ghost y: M.Sync)
      requires Distinct() && CpuIs(c) && SyncIs(y) && t in thread
      modifies `ready, `running, `slice, threads`status
      ensures CpuIs(M.StartThread(c, y.prio, t)) && SyncIs(y)
    {
      hide SyncIs, CpuIs, PrioIs, Distinct, M.Unblock, M.YieldCpu;
      PrioOf(y);
      RunningIs(c);
      ThreadAt(t, y);
      ThreadAt(running, y);
      ThreadUnblock(t, c, y.prio);
      UnblockRunning(c, y.prio, t);
      RunningIs(M.Unblock(c, y.prio, t));
      var cur := running;
      if thread[t].priority > thread[cur].priority {
        PrioOf(y);
        ThreadYield(M.Unblock(c, y.prio, t), y.prio);
      }
    }

    /** thread_exit; the object stays, as the model keeps the thread's name. */
    method Exit(ghost s: M.State)
      requires Distinct() && Shows(s) && Linked(s.sync) && M.Enabled(s, M.Exit)
      modifies `ready, `running, `slice, threads`status
      ensures Shows(M.Step(s, M.Exit)) && Linked(M.Step(s, M.Exit).sync)
      ensures old(running) in thread
      ensures Inv(s) ==> thread[old(running)].status == M.Dying && running != old(running) && old(running) !in ready
    {
      hide SyncIs, PrioIs, Distinct, Linked, StatusIs, WakeIs, Known, M.Schedule, Inv;
      var cur := running;
      PrioOf(s.sync);
      SetStatus(cur, M.Dying, s.cpu.status);
      Schedule(s.cpu.(status := Put(s.cpu.status, s.cpu.running, M.Dying)), s.sync.prio);
      if Inv(s) {
        Turns.ExitIsGone(s);
        StatusAt(cur, M.Step(s, M.Exit).cpu);
      }
    }

    lemma StatusAt(t: Tid, c: M.Cpu)
      requires Distinct() && CpuIs(c) && t in thread
      ensures thread[t].status == c.status(t)
    {
    }
  }

  /** Both priorities of t stored. */
  ghost function Prioritized(y: M.Sync, t: Tid, p: int): M.Sync {
    y.(pc := Put(y.pc, t, M.User), prio := Put(y.prio, t, p), init := Put(y.init, t, p))
  }

  // ---------- start-up ----------

  /** The machine's state after start-up. */
  ghost function BootState(idle: Tid, main: Tid, named: map<int, nat>): M.State {
    var prio := (t: Tid) => FirstPriority(t, idle);
    M.State(
      M.Cpu(idle, main, [], [], (t: Tid) => if t == main then M.Running else M.Blocked, (t: Tid) => 0, 0, 0),
      M.Sync({idle, main}, (t: Tid) => if t == idle then M.IdleLoop else M.User, prio, prio,
             (t: Tid) => M.None, (t: Tid) => [], (n: M.Sema) => FirstValue(n, named), (n: M.Sema) => [],
             (l: M.LockId) => M.None, (c: M.Cond) => []))
  }

  lemma BootIs(idle: Tid, main: Tid, named: map<int, nat>)
    requires idle != main
    ensures var s := BootState(idle, main, named);
            && M.Boot(s) && s.sync.threads == {idle, main}
            && s.cpu.idle == idle && s.cpu.running == main && s.cpu.ticks == 0
  {
  }

  /** The value a semaphore is initialized with. */
  function FirstValue(n: M.Sema, named: map<int, nat>): nat {
    match n
    case OfLock(_) => 1
    case OfWaiter(_) => 0
    case Named(k) => if k in named then named[k] else 0
  }

  function FirstPriority(t: Tid, idle: Tid): int {
    if t == idle then M.PRI_MIN else M.PRI_DEFAULT
  }

  ghost predicate FirstThreads(thread: map<Tid, Thread>, threads: set<Thread>, idle: Tid, main: Tid)
    reads threads
  {
    && (forall t :: t in thread ==> thread[t] in threads && thread[t].tid == t)
    && (forall o :: o in threads ==> o.tid in thread && thread[o.tid] == o)
    && (forall o :: o in threads ==> o.waitingLock == M.None && o.donations == [] && o.sleepingTicks == 0)
    && (forall o :: o in threads ==> o.status == if o.tid == main then M.Running else M.Blocked)
    && (forall o :: o in threads ==> o.pc == if o.tid == idle then M.IdleLoop else M.User)
    && (forall o :: o in threads ==> o.priority == o.initPriority && o.priority == FirstPriority(o.tid, idle))
  }

  ghost predicate FirstSemaphores(sema: map<M.Sema, Semaphore>, semas: set<Semaphore>, named: map<int, nat>)
    reads semas
  {
    && (forall n :: n in sema ==> sema[n] in semas && sema[n].name == n)
    && (forall o :: o in semas ==> o.name in sema && sema[o.name] == o)
    && (forall o :: o in semas ==> o.value == FirstValue(o.name, named) && o.waiters == [])
  }

  ghost predicate FirstLocks(lock: map<M.LockId, Lock>, locks: set<Lock>)
    reads locks
  {
    && (forall l :: l in lock ==> lock[l] in locks && lock[l].name == l)
    && (forall o :: o in locks ==> o.name in lock && lock[o.name] == o)
    && (forall o :: o in locks ==> o.holder == M.None)
  }

  ghost predicate FirstConditions(cond: map<M.Cond, Condition>, conds: set<Condition>)
    reads conds
  {
    && (forall c :: c in cond ==> cond[c] in conds && cond[c].name == c)
    && (forall o :: o in conds ==> o.name in cond && cond[o.name] == o)
    && (forall o :: o in conds ==> o.waiters == [])
  }

  method NewThreads(names: set<Tid>, idle: Tid, main: Tid) returns (thread: map<Tid, Thread>, threads: set<Thread>)
    ensures thread.Keys == names && fresh(threads) && FirstThreads(thread, threads, idle, main)
  {
    hide FirstThreads, FirstPriority;
    thread, threads := map[], {};
    NoThreads(idle, main);
    var todo := names;
    while todo != {}
      invariant todo <= names && thread.Keys == names - todo
      invariant fresh(threads) && FirstThreads(thread, threads, idle, main)
      decreases todo
    {
      var t := Pick(todo);
      var o := new Thread(t, FirstPriority(t, idle), if t == idle then M.IdleLoop else M.User);
      if t == main {
        o.status := M.Running;
      }
      ThreadsNext(thread, threads, idle, main, t, o);
      thread, threads := thread[t := o], threads + {o};
      todo := todo - {t};
    }
  }

  lemma NoThreads(idle: Tid, main: Tid)
    ensures FirstThreads(map[], {}, idle, main)
  {
  }

  lemma ThreadsNext(thread: map<Tid, Thread>, threads: set<Thread>, idle: Tid, main: Tid, t: Tid, o: Thread)
    requires FirstThreads(thread, threads, idle, main) && t !in thread && o.tid == t && o !in threads
    requires o.waitingLock == M.None && o.donations == [] && o.sleepingTicks == 0
    requires o.status == if t == main then M.Running else M.Blocked
    requires o.pc == if t == idle then M.IdleLoop else M.User
    requires o.priority == o.initPriority == FirstPriority(t, idle)
    ensures FirstThreads(thread[t := o], threads + {o}, idle, main)
  {
  }

  method NewSemaphores(names: set<M.Sema>, named: map<int, nat>) returns (sema: map<M.Sema, Semaphore>, semas: set<Semaphore>)
    ensures sema.Keys == names && fresh(semas) && FirstSemaphores(sema, semas, named)
  {
    sema, semas := map[], {};
    var todo := names;
    while todo != {}
      invariant todo <= names && sema.Keys == names - todo
      invariant fresh(semas) && FirstSemaphores(sema, semas, named)
      decreases todo
    {
      var n := Pick(todo);
      var o := new Semaphore(n, FirstValue(n, named));
      sema, semas := sema[n := o], semas + {o};
      todo := todo - {n};
    }
  }

  method NewLocks(names: set<M.LockId>) returns (lock: map<M.LockId, Lock>, locks: set<Lock>)
    ensures lock.Keys == names && fresh(locks) && FirstLocks(lock, locks)
  {
    lock, locks := map[], {};
    var todo := names;
    while todo != {}
      invariant todo <= names && lock.Keys == names - todo
      invariant fresh(locks) && FirstLocks(lock, locks)
      decreases todo
    {
      var l := Pick(todo);
      var o := new Lock(l);
      lock, locks := lock[l := o], locks + {o};
      todo := todo - {l};
    }
  }

  method NewConditions(names: set<M.Cond>) returns (cond: map<M.Cond, Condition>, conds: set<Condition>)
    ensures cond.Keys == names && fresh(conds) && FirstConditions(cond, conds)
  {
    cond, conds := map[], {};
    var todo := names;
    while todo != {}
      invariant todo <= names && cond.Keys == names - todo
      invariant fresh(conds) && FirstConditions(cond, conds)
      decreases todo
    {
      var c := Pick(todo);
      var o := new Condition(c);
      cond, conds := cond[c := o], conds + {o};
      todo := todo - {c};
    }
  }

  /** The names of the semaphores of a kernel. */
  function SemaNames(pages: set<Tid>, named: map<int, nat>, lockNames: set<M.LockId>): (names: set<M.Sema>)
    ensures forall t :: t in pages ==> M.OfWaiter(t) in names
    ensures forall l :: l in lockNames ==> M.OfLock(l) in names
    ensures forall n :: n in named ==> M.Named(n) in names
  {
    (set t | t in pages :: M.OfWaiter(t)) + (set l | l in lockNames :: M.OfLock(l)) + (set n | n in named :: M.Named(n))
  }

  /** Start-up: a page for each name in pages, of which those of the main and the idle
      thread are in use, and the given semaphores, locks and condition variables. */
  method Start(idle: Tid, main: Tid, pages: set<Tid>, named: map<int, nat>,
               lockNames: set<M.LockId>, condNames: set<M.Cond>) returns (k: Kernel)
    requires idle != main && idle in pages && main in pages
    requires forall c :: c in condNames ==> c.lock in lockNames
    ensures fresh(k) && fresh(k.threads) && fresh(k.semas) && fresh(k.locks) && fresh(k.conds)
    ensures k.thread.Keys == pages && k.lock.Keys == lockNames && k.cond.Keys == condNames
    ensures forall n :: n in named ==> M.Named(n) in k.sema
    ensures M.Boot(BootState(idle, main, named))
    ensures k.Distinct() && k.Shows(BootState(idle, main, named)) && k.Linked(BootState(idle, main, named).sync)
  {
    hide BootState, FirstThreads, FirstSemaphores, FirstLocks, FirstConditions, SemaNames;
    var thread, threads := NewThreads(pages, idle, main);
    var sema, semas := NewSemaphores(SemaNames(pages, named, lockNames), named);
    var lock, locks := NewLocks(lockNames);
    var cond, conds := NewConditions(condNames);
    k := new Kernel(idle, main, named, thread, threads, sema, semas, lock, locks, cond, conds);
    BootIs(idle, main, named);
  }

  lemma UnblockRunning(c: M.Cpu, prio: Total<Tid, int>, t: Tid)
    ensures M.Unblock(c, prio, t).running == c.running
  {
  }

  lemma StayIs(c: M.Cpu, prio: Total<Tid, int>)
    ensures M.Act(c, prio, M.Stay) == c
  {
  }

  lemma DonateIs(c: M.Cpu, y: M.Sync, r: Tid, l: M.LockId, h: Tid, path: seq<Tid>)
    ensures M.Donate(y, r, l, h, path).waiters == y.waiters
  {
  }

  lemma DonateKeepsPc(y: M.Sync, r: Tid, l: M.LockId, h: Tid, path: seq<Tid>)
    ensures M.Donate(y, r, l, h, path).pc == y.pc
  {
  }

  lemma DownKeepsPrio(y: M.Sync, r: Tid, n: M.Sema)
    ensures M.Down(y, r, n).0.prio == y.prio
  {
  }

  lemma SortedQueueSize(y: M.Sync, cv: M.Cond, q: seq<Tid>)
    requires M.SortedQueue(y, cv, q) && y.queue(cv) != []
    ensures q != []
  {
    assert |multiset(q)| == |q| && |multiset(y.queue(cv))| == |y.queue(cv)|;
  }

  lemma SortedQueueNone(y: M.Sync, cv: M.Cond)
    requires y.queue(cv) == []
    ensures M.SortedQueue(y, cv, [])
  {
  }
}
