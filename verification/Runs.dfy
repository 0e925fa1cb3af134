/** Guarantees that relate several states of a run. */
module Runs {
  import opened Lists
  import opened Machine
  import opened Parking
  import opened Ownership
  import opened Donation
  import opened Chains
  import opened Priority
  import opened Conditions
  import opened Dispatch
  import opened Invariant
  import opened Guarantees

  // ---------- effective priorities ----------

  /** The step e from s donates to a chain with a thread above the donor. */
  ghost predicate FromBelow(s: State, e: Event) {
    e.Run? && DonatesFromBelow(s.sync, s.cpu.running, e.path)
  }

  /** With all priorities exact, a step keeps them exact if and only if it does not donate from below. */
  lemma StepEffectiveIff(s: State, e: Event)
    requires Inv(s) && Effective(s.sync) && Enabled(s, e)
    ensures Effective(Step(s, e).sync) <==> !FromBelow(s, e)
  {
    var y, r := s.sync, s.cpu.running;
    RunningIsActive(s.cpu, y);
    match e {
      case Call(op) => SameEffective(y, Move(y, r, op));
      case Run(path, order) => RunKeepsEffectiveIff(y, r, path, order);
      case Create(t, p) => AddKeepsEffective(y, t, p);
      case _ =>
    }
  }

  lemma BootIsEffective(s: State)
    requires Boot(s)
    ensures Effective(s.sync)
  {
    forall t ensures HighestAt(s.sync, t) {
    }
  }

  /** In a run without donations from below, every thread's priority is at all times
      the highest of its own and its donors'. */
  lemma {:induction false} EffectiveThroughout(ss: seq<State>, es: seq<Event>, i: nat)
    requires IsRun(ss, es) && Boot(ss[0]) && i < |ss|
    requires forall j :: 0 <= j < i ==> !FromBelow(ss[j], es[j])
    ensures Effective(ss[i].sync)
  {
    if i == 0 {
      BootIsEffective(ss[0]);
    } else {
      EffectiveThroughout(ss, es, i - 1);
      EveryState(ss, es, i - 1);
      StepEffectiveIff(ss[i - 1], es[i - 1]);
    }
  }

  // ---------- where donate_priority ends ----------

  /** The running thread is inside a primitive and has a next step. */
  ghost predicate CanGoOn(s: State) {
    exists path, order :: CanRun(s.sync, s.cpu.running, path, order)
  }

  /** The running thread is about to wait for a lock whose holder, directly or
      through others, waits for it. */
  ghost predicate ClosesCycle(s: State, p: seq<Tid>) {
    var y, r := s.sync, s.cpu.running;
    && y.pc(r).Acquire? && y.holder(y.pc(r).lock).Some?
    && IsChain(y.waiting, y.holder, y.holder(y.pc(r).lock).value, p) && r in p
  }

  /** Inside a primitive the running thread can always go on, except exactly where
      acquiring the lock would close a cycle: there donate_priority never ends. */
  lemma StuckIff(s: State)
    requires Reachable(s) && s.sync.pc(s.cpu.running) != User
    ensures !CanGoOn(s) <==> exists p :: ClosesCycle(s, p)
  {
    hide Inv, Reachable, Acyclic;
    ReachableInv(s);
    var y, r := s.sync, s.cpu.running;
    RunnerWaitsForNothing(s);
    match y.pc(r) {
      case User =>
      case Acquire(l) =>
        if y.holder(l).Some? {
          AcquireStuckIff(s, l, y.holder(l).value);
        } else {
          assert CanRun(y, r, [], []);
        }
      case CondWait(c) =>
        assert y.queue(c) + [r] == y.queue(c)[..|y.queue(c)|] + [r] + y.queue(c)[|y.queue(c)|..];
        assert CanRun(y, r, [], y.queue(c) + [r]);
      case Signal(c, _) => assert CanRun(y, r, [], Sort(y.prio, y.queue(c)));
      case _ => assert CanRun(y, r, [], []);
    }
  }

  lemma RunnerWaitsForNothing(s: State)
    requires Inv(s)
    ensures s.sync.waiting(s.cpu.running) == None && Acyclic(s.sync)
  {
    RunningIsActive(s.cpu, s.sync);
    ActiveWaitsForNothing(s.sync, s.cpu.running);
  }

  lemma AcquireStuckIff(s: State, l: LockId, h: Tid)
    requires Acyclic(s.sync) && s.sync.waiting(s.cpu.running) == None
    requires s.sync.pc(s.cpu.running) == Acquire(l) && s.sync.holder(l) == Some(h)
    ensures !CanGoOn(s) <==> exists p :: ClosesCycle(s, p)
  {
    var y, r := s.sync, s.cpu.running;
    assert Ends(y.waiting, y.holder, h);
    var p :| IsChain(y.waiting, y.holder, h, p);
    DonationEndsIff(y, r, l, h, p);
    if r in p {
      assert ClosesCycle(s, p);
    } else {
      var path :| IsChain(Put(y.waiting, r, Some(l)), y.holder, h, path);
      assert CanRun(y, r, path, []);
      forall q ensures !ClosesCycle(s, q) {
        if ClosesCycle(s, q) {
          ChainUnique(y.waiting, y.holder, h, p, q);
        }
      }
    }
  }

  /** Every lock_acquire in the run keeps to the ranking. */
  ghost predicate KeepsRanking(rank: LockId -> int, s: State, e: Event) {
    e.Run? && s.sync.pc(s.cpu.running).Acquire? ==> MayAcquire(s.sync, rank, s.cpu.running, s.sync.pc(s.cpu.running).lock)
  }

  lemma StepKeepsRanked(rank: LockId -> int, s: State, e: Event)
    requires Inv(s) && Ranked(s.sync, rank) && Enabled(s, e) && KeepsRanking(rank, s, e)
    ensures Ranked(Step(s, e).sync, rank)
  {
    RunningIsActive(s.cpu, s.sync);
    hide Inv, Exec;
    match e {
      case Run(path, order) =>
        assert SyncInv(s.sync) by {
          InvParts(s);
        }
        RunKeepsRanked(s.sync, rank, s.cpu.running, path, order);
      case _ =>
    }
  }

  lemma InvParts(s: State)
    requires Inv(s)
    ensures SyncInv(s.sync) && Scheduled(s.cpu, s.sync)
  {
  }

  lemma {:induction false} RankedThroughout(rank: LockId -> int, ss: seq<State>, es: seq<Event>, i: nat)
    requires IsRun(ss, es) && Boot(ss[0]) && i < |ss|
    requires forall j :: 0 <= j < i ==> KeepsRanking(rank, ss[j], es[j])
    ensures Ranked(ss[i].sync, rank)
  {
    if i > 0 {
      RankedThroughout(rank, ss, es, i - 1);
      EveryState(ss, es, i - 1);
      StepKeepsRanked(rank, ss[i - 1], es[i - 1]);
    }
  }

  /** If all threads acquire locks in rank order, ranks rise along every chain of
      waits and every lock_acquire in rank order can go on. */
  lemma RankedNeverStuck(rank: LockId -> int, ss: seq<State>, es: seq<Event>, i: nat, l: LockId)
    requires IsRun(ss, es) && Boot(ss[0]) && i < |ss|
    requires forall j :: 0 <= j < i ==> KeepsRanking(rank, ss[j], es[j])
    requires ss[i].sync.pc(ss[i].cpu.running) == Acquire(l) && MayAcquire(ss[i].sync, rank, ss[i].cpu.running, l)
    ensures CanGoOn(ss[i])
  {
    RankedThroughout(rank, ss, es, i);
    EveryState(ss, es, i);
    var y, r := ss[i].sync, ss[i].cpu.running;
    RunningIsActive(ss[i].cpu, y);
    ActiveWaitsForNothing(y, r);
    if y.holder(l).Some? {
      var h := y.holder(l).value;
      RankedDonationEnds(y, rank, r, l, h);
      var path :| IsChain(Put(y.waiting, r, Some(l)), y.holder, h, path);
      assert CanRun(y, r, path, []);
    } else {
      assert CanRun(y, r, [], []);
    }
  }

  // ---------- semaphore accounting ----------

  /** The step e from s completes a sema_down, or a successful sema_try_down, of sm. */
  ghost predicate CompletesDown(s: State, e: Event, sm: Sema) {
    e.Run? && TakesOn(s.sync, s.cpu.running, sm)
  }

  ghost predicate TakesOn(y: Sync, r: Tid, sm: Sema) {
    && y.value(sm) > 0
    && (|| DownOn(r, y.pc(r)) == Some(sm)
        || (y.pc(r).PlainTry? && sm == Named(y.pc(r).name))
        || (y.pc(r).TryAcquire? && sm == OfLock(y.pc(r).lock)))
  }

  ghost function Downs(ss: seq<State>, es: seq<Event>, sm: Sema): nat
    requires |ss| == |es| + 1
  {
    if es == [] then 0
    else
      var n := |es| - 1;
      Downs(ss[..n + 1], es[..n], sm) + if CompletesDown(ss[n], es[n], sm) then 1 else 0
  }

  ghost function Ups(ss: seq<State>, es: seq<Event>, sm: Sema): nat
    requires |ss| == |es| + 1
  {
    if es == [] then 0
    else
      var n := |es| - 1;
      Ups(ss[..n + 1], es[..n], sm) + if DoesUp(ss[n], es[n], sm) then 1 else 0
  }

  /** The step e from s is the sema_init of sm in cond_wait. */
  ghost predicate Inits(s: State, e: Event, sm: Sema) {
    e.Run? && s.sync.pc(s.cpu.running).CondWait? && sm == OfWaiter(s.cpu.running)
  }

  lemma ExecAccount(y: Sync, r: Tid, path: seq<Tid>, order: seq<Tid>, sm: Sema)
    requires !(y.pc(r).CondWait? && sm == OfWaiter(r))
    requires y.pc(r).Acquire? && y.holder(y.pc(r).lock).Some? ==> y.value(OfLock(y.pc(r).lock)) == 0
    ensures Exec(y, r, path, order).0.value(sm) ==
            y.value(sm) + (if UpOn(y.pc(r)) == Some(sm) then 1 else 0) - (if TakesOn(y, r, sm) then 1 else 0)
  {
    hide Down, Up, StartAcquire, StartWait, Unhold, Assign;
    match y.pc(r) {
      case PlainDown(n, _) => DownAccount(y, r, Named(n), sm);
      case LockDown(l, _) => DownAccount(y, r, OfLock(l), sm);
      case WaitDown(_, _) => DownAccount(y, r, OfWaiter(r), sm);
      case PlainUp(n) => UpAccount(y, r, Named(n), sm);
      case ReleaseUp(l, _) => UpAccount(y, r, OfLock(l), sm);
      case SignalUp(_, t, _) => UpAccount(y, r, OfWaiter(t), sm);
      case Acquire(l) => AcquireKeepsValues(y, r, l, path);
      case CondWait(c) => WaitKeepsValue(y, r, c, order, sm);
      case Release(l, next) => ReleaseKeepsValues(y, r, l, next);
      case SetPriority(p) => AssignKeepsValues(y, r, p);
      case _ =>
    }
  }

  lemma DownAccount(y: Sync, r: Tid, n: Sema, sm: Sema)
    ensures Down(y, r, n).0.value(sm) == y.value(sm) - if n == sm && y.value(sm) > 0 then 1 else 0
  {
  }

  lemma UpAccount(y: Sync, r: Tid, n: Sema, sm: Sema)
    ensures Up(y, r, n).0.value(sm) == y.value(sm) + if n == sm then 1 else 0
  {
    hide Sort;
  }

  lemma AcquireKeepsValues(y: Sync, r: Tid, l: LockId, path: seq<Tid>)
    requires y.holder(l).Some? ==> y.value(OfLock(l)) == 0
    ensures StartAcquire(y, r, l, path).0.value == y.value
  {
    hide Insert;
  }

  lemma WaitKeepsValue(y: Sync, r: Tid, c: Cond, order: seq<Tid>, sm: Sema)
    requires sm != OfWaiter(r)
    ensures StartWait(y, r, c, order).value(sm) == y.value(sm)
  {
  }

  lemma ReleaseKeepsValues(y: Sync, r: Tid, l: LockId, next: Then)
    ensures Unhold(y, r, l, next).value == y.value
  {
  }

  lemma AssignKeepsValues(y: Sync, r: Tid, p: int)
    ensures Assign(y, r, p).value == y.value
  {
  }

  lemma StepAccount(s: State, e: Event, sm: Sema)
    requires Inv(s) && Enabled(s, e) && !Inits(s, e, sm)
    ensures Step(s, e).sync.value(sm) ==
            s.sync.value(sm) + (if DoesUp(s, e, sm) then 1 else 0) - (if CompletesDown(s, e, sm) then 1 else 0)
  {
    var y, r := s.sync, s.cpu.running;
    if e.Run? {
      if y.pc(r).Acquire? && y.holder(y.pc(r).lock).Some? {
        OwnedIsZero(y, y.pc(r).lock, y.holder(y.pc(r).lock).value);
      }
      hide Inv, Exec;
      ExecAccount(y, r, e.path, e.order, sm);
    }
  }

  /** From its initialization on, a semaphore's value is its first value plus the ups
      less the completed downs. */
  lemma {:induction false} ValueAccount(ss: seq<State>, es: seq<Event>, sm: Sema)
    requires KernelRun(ss, es) && forall i :: 0 <= i < |es| ==> !Inits(ss[i], es[i], sm)
    ensures ss[|es|].sync.value(sm) == ss[0].sync.value(sm) + Ups(ss, es, sm) - Downs(ss, es, sm)
  {
    hide Inv, Reachable, Step, Enabled, Inits, DoesUp, CompletesDown;
    if es != [] {
      var n := |es| - 1;
      KernelRunPrefix(ss, es);
      KernelRunInv(ss, es, n);
      ValueAccount(ss[..n + 1], es[..n], sm);
      StepAccount(ss[n], es[n], sm);
    }
  }

  // ---------- condition broadcast ----------

  /** In the loop of cond_broadcast on c. */
  predicate Broadcasting(pc: Pc, c: Cond) {
    || pc == Broadcast(c)
    || pc == Signal(c, true)
    || (pc.SignalUp? && pc.cond == c && pc.more)
  }

  /** In cond_signal or cond_broadcast on c. */
  predicate Signalling(pc: Pc, c: Cond) {
    || pc == Broadcast(c)
    || (pc.Signal? && pc.cond == c)
    || (pc.SignalUp? && pc.cond == c)
  }

  /** The waiter taken from the queue but not yet upped. */
  function Taken(pc: Pc): multiset<Tid> {
    if pc.SignalUp? then multiset{pc.chosen} else multiset{}
  }

  /** The threads b has signalled, in order. */
  ghost function SignalledBy(b: Tid, ss: seq<State>, es: seq<Event>): seq<Tid>
    requires |ss| == |es| + 1
  {
    if es == [] then []
    else
      var n := |es| - 1;
      SignalledBy(b, ss[..n + 1], es[..n]) + SignalledIn(b, ss[n], es[n])
  }

  ghost function SignalledIn(b: Tid, s: State, e: Event): seq<Tid> {
    if e.Run? && s.cpu.running == b && s.sync.pc(b).SignalUp? then [s.sync.pc(b).chosen] else []
  }

  /** The queue of c changes only in a step of cond_wait or cond_signal on c. */
  lemma ExecLeavesQueue(y: Sync, r: Tid, path: seq<Tid>, order: seq<Tid>, b: Tid, c: Cond)
    requires y.pc(r) != CondWait(c) && !(y.pc(r).Signal? && y.pc(r).cond == c)
    ensures Exec(y, r, path, order).0.queue(c) == y.queue(c)
  {
  }

  lemma DownMovesOne(y: Sync, r: Tid, sm: Sema, b: Tid)
    requires b != r
    ensures Down(y, r, sm).0.pc(b) == y.pc(b)
  {
  }

  lemma UpMovesOne(y: Sync, r: Tid, sm: Sema, b: Tid)
    requires b != r
    ensures Up(y, r, sm).0.pc(b) == y.pc(b)
  {
  }

  lemma AcquireMovesOne(y: Sync, r: Tid, l: LockId, path: seq<Tid>, b: Tid)
    requires b != r
    ensures StartAcquire(y, r, l, path).0.pc(b) == y.pc(b)
  {
    hide Down;
    if y.holder(l).Some? {
      DownMovesOne(Donate(Move(y, r, LockDown(l, false)), r, l, y.holder(l).value, path), r, OfLock(l), b);
    }
  }

  lemma ResetMovesNone(y: Sync, r: Tid)
    ensures Reset(y, r).pc == y.pc
  {
  }

  lemma ReleaseMovesOne(y: Sync, r: Tid, l: LockId, next: Then, b: Tid)
    requires b != r
    ensures Unhold(y, r, l, next).pc(b) == y.pc(b)
  {
    hide Reset;
    ResetMovesNone(RemoveLock(y.(holder := Put(y.holder, l, None), pc := Put(y.pc, r, ReleaseUp(l, next))), r, l), r);
  }

  lemma AssignMovesOne(y: Sync, r: Tid, p: int, b: Tid)
    requires b != r
    ensures Assign(y, r, p).pc(b) == y.pc(b)
  {
    hide Reset;
    ResetMovesNone(y.(pc := Put(y.pc, r, User), prio := Put(y.prio, r, p), init := Put(y.init, r, p)), r);
  }

  /** A step moves nobody but the running thread. */
  lemma ExecMovesOne(y: Sync, r: Tid, path: seq<Tid>, order: seq<Tid>, b: Tid)
    requires b != r
    ensures Exec(y, r, path, order).0.pc(b) == y.pc(b)
  {
    hide Down, Up, StartAcquire, Unhold, Assign;
    match y.pc(r) {
      case PlainDown(n, _) => DownMovesOne(y, r, Named(n), b);
      case LockDown(l, _) => DownMovesOne(y, r, OfLock(l), b);
      case WaitDown(_, _) => DownMovesOne(y, r, OfWaiter(r), b);
      case PlainUp(n) => UpMovesOne(y, r, Named(n), b);
      case ReleaseUp(l, _) => UpMovesOne(y, r, OfLock(l), b);
      case SignalUp(_, t, _) => UpMovesOne(y, r, OfWaiter(t), b);
      case Acquire(l) => AcquireMovesOne(y, r, l, path, b);
      case Release(l, next) => ReleaseMovesOne(y, r, l, next, b);
      case SetPriority(p) => AssignMovesOne(y, r, p, b);
      case _ =>
    }
  }

  /** The lock's holder alone can be at a point that changes the queue. */
  lemma HolderOnly(s: State, b: Tid, c: Cond)
    requires Inv(s) && Signalling(s.sync.pc(b), c)
    ensures b in s.sync.threads
    ensures forall r :: r != b ==> s.sync.pc(r) != CondWait(c) && !(s.sync.pc(r).Signal? && s.sync.pc(r).cond == c)
  {
    hide Inv, Held;
    var y := s.sync;
    InvHeld(s);
    HeldAt(y, b);
    HolderIsThread(y, c.lock);
    forall r | r != b ensures y.pc(r) != CondWait(c) && !(y.pc(r).Signal? && y.pc(r).cond == c) {
      HeldAt(y, r);
    }
  }

  lemma InvHeld(s: State)
    requires Inv(s)
    ensures Held(s.sync)
  {
  }

  lemma HolderIsThread(y: Sync, l: LockId)
    requires Held(y) && y.holder(l).Some?
    ensures y.holder(l).value in y.threads
  {
  }

  /** While b signals or broadcasts on c, a step of another thread leaves c's queue alone:
      the queue is changed under the lock b holds. */
  lemma OthersLeaveQueue(s: State, e: Event, b: Tid, c: Cond)
    requires Inv(s) && Enabled(s, e) && Signalling(s.sync.pc(b), c)
    requires !(e.Run? && s.cpu.running == b)
    ensures Step(s, e).sync.queue(c) == s.sync.queue(c)
    ensures Step(s, e).sync.pc(b) == s.sync.pc(b)
  {
    hide Inv, Exec;
    var y, r := s.sync, s.cpu.running;
    HolderOnly(s, b, c);
    if e.Run? {
      ExecLeavesQueue(y, r, e.path, e.order, b, c);
      ExecMovesOne(y, r, e.path, e.order, b);
    }
  }

  /** cond_signal takes one waiter. */
  lemma SignalStep(y: Sync, b: Tid, c: Cond, order: seq<Tid>)
    requires y.pc(b) == Signal(c, true) && multiset(order) == multiset(y.queue(c))
    ensures var y' := StartSignal(y, b, c, true, order);
            && multiset(y.queue(c)) == multiset(y'.queue(c)) + Taken(y'.pc(b))
            && Broadcasting(y'.pc(b), c) && Left(y', b, c) < Left(y, b, c)
  {
    SameSize(order, y.queue(c));
    if order != [] {
      assert order == [order[0]] + order[1..];
    }
  }

  /** A step of b either takes a waiter, or signals the one it took, or tests for more. */
  lemma BroadcastExec(y: Sync, b: Tid, c: Cond, path: seq<Tid>, order: seq<Tid>)
    requires Broadcasting(y.pc(b), c) && CanRun(y, b, path, order)
    ensures var y' := Exec(y, b, path, order).0;
            && multiset(y.queue(c)) == multiset(y'.queue(c)) + (if y.pc(b).SignalUp? then multiset{} else Taken(y'.pc(b)))
            && (y.pc(b).SignalUp? ==> Taken(y'.pc(b)) == multiset{})
            && (Broadcasting(y'.pc(b), c) || (y'.pc(b) == User && y'.queue(c) == []))
            && Left(y', b, c) < Left(y, b, c)
  {
    hide Sort, Insert, Up, StartSignal, Queued, InsertedAnywhere, IsChain;
    match y.pc(b) {
      case Signal(_, _) => SignalStep(y, b, c, order);
      case SignalUp(_, t, _) => SignalUpStep(y, b, c, t);
      case Broadcast(_) =>
    }
  }

  lemma SignalUpStep(y: Sync, b: Tid, c: Cond, t: Tid)
    requires y.pc(b) == SignalUp(c, t, true)
    ensures Up(y, b, OfWaiter(t)).0.pc(b) == Broadcast(c) && Up(y, b, OfWaiter(t)).0.queue == y.queue
  {
    hide Sort;
  }

  lemma BroadcastStep(s: State, e: Event, b: Tid, c: Cond)
    requires Enabled(s, e) && Broadcasting(s.sync.pc(b), c) && e.Run? && s.cpu.running == b
    ensures var y, y' := s.sync, Step(s, e).sync;
            && multiset(y.queue(c)) == multiset(y'.queue(c)) + (if y.pc(b).SignalUp? then multiset{} else Taken(y'.pc(b)))
            && (y.pc(b).SignalUp? ==> Taken(y'.pc(b)) == multiset{})
            && (Broadcasting(y'.pc(b), c) || (y'.pc(b) == User && y'.queue(c) == []))
            && Left(y', b, c) < Left(y, b, c)
  {
    BroadcastExec(s.sync, b, c, e.path, e.order);
  }

  lemma SameSize(xs: seq<Tid>, ys: seq<Tid>)
    requires multiset(xs) == multiset(ys)
    ensures |xs| == |ys|
  {
    assert |multiset(xs)| == |xs|;
    assert |multiset(ys)| == |ys|;
  }

  /** How many steps of its own b's broadcast can still take. */
  ghost function Left(y: Sync, b: Tid, c: Cond): nat {
    match y.pc(b)
    case Broadcast(_) => 3 * |y.queue(c)| + 1
    case Signal(_, _) => if y.queue(c) == [] then 2 else 3 * |y.queue(c)|
    case SignalUp(_, _, _) => 3 * |y.queue(c)| + 2
    case _ => 0
  }

  /** What one step, of whichever thread, adds to the waiters b has signalled. */
  lemma BroadcastOneMore(s: State, e: Event, b: Tid, c: Cond)
    requires Inv(s) && Enabled(s, e) && Broadcasting(s.sync.pc(b), c)
    ensures var y, y' := s.sync, Step(s, e).sync;
            && multiset(y.queue(c)) + Taken(y.pc(b)) ==
                 multiset(y'.queue(c)) + Taken(y'.pc(b)) + multiset(SignalledIn(b, s, e))
            && (Broadcasting(y'.pc(b), c) || (y'.pc(b) == User && y'.queue(c) == []))
  {
    hide Inv, Step, Enabled;
    if e.Run? && s.cpu.running == b {
      BroadcastStep(s, e, b, c);
    } else {
      OthersLeaveQueue(s, e, b, c);
    }
  }

  lemma Regroup(before: seq<Tid>, now: seq<Tid>, t: multiset<Tid>, q: multiset<Tid>, t': multiset<Tid>,
      q': multiset<Tid>, all: multiset<Tid>)
    requires multiset(before) + t + q == all && q + t == q' + t' + multiset(now)
    ensures multiset(before + now) + t' + q' == all
  {
    assert multiset(before + now) == multiset(before) + multiset(now);
    forall x: Tid ensures (multiset(before + now) + t' + q')[x] == all[x] {
      assert (q + t)[x] == (q' + t' + multiset(now))[x];
    }
  }

  /** Throughout a broadcast the waiters signalled so far, the one in hand and the
      ones still queued are together exactly those queued at its start. */
  lemma {:induction false} BroadcastConserves(ss: seq<State>, es: seq<Event>, b: Tid, c: Cond)
    requires KernelRun(ss, es) && ss[0].sync.pc(b) == Broadcast(c)
    requires forall i :: 0 <= i < |es| ==> Broadcasting(ss[i].sync.pc(b), c)
    ensures var y := ss[|es|].sync;
            multiset(SignalledBy(b, ss, es)) + Taken(y.pc(b)) + multiset(y.queue(c)) == multiset(ss[0].sync.queue(c))
    ensures Broadcasting(ss[|es|].sync.pc(b), c) || (ss[|es|].sync.pc(b) == User && ss[|es|].sync.queue(c) == [])
  {
    hide Inv, Step, Enabled, Left;
    if es != [] {
      var n := |es| - 1;
      KernelRunPrefix(ss, es);
      KernelRunInv(ss, es, n);
      BroadcastConserves(ss[..n + 1], es[..n], b, c);
      BroadcastOneMore(ss[n], es[n], b, c);
      assert ss[n + 1] == Step(ss[n], es[n]) && ss[..n + 1][n] == ss[n];
      var before, now := SignalledBy(b, ss[..n + 1], es[..n]), SignalledIn(b, ss[n], es[n]);
      assert SignalledBy(b, ss, es) == before + now;
      Regroup(before, now, Taken(ss[n].sync.pc(b)), multiset(ss[n].sync.queue(c)),
              Taken(ss[n + 1].sync.pc(b)), multiset(ss[n + 1].sync.queue(c)), multiset(ss[0].sync.queue(c)));
    }
  }

  /** When a broadcast has ended, it has signalled exactly the threads that waited
      at its start, each once. */
  lemma BroadcastSignalsAll(ss: seq<State>, es: seq<Event>, b: Tid, c: Cond)
    requires KernelRun(ss, es) && ss[0].sync.pc(b) == Broadcast(c)
    requires forall i :: 0 <= i < |es| ==> Broadcasting(ss[i].sync.pc(b), c)
    requires !Broadcasting(ss[|es|].sync.pc(b), c)
    ensures multiset(SignalledBy(b, ss, es)) == multiset(ss[0].sync.queue(c))
    ensures NoDup(SignalledBy(b, ss, es))
  {
    BroadcastConserves(ss, es, b, c);
    var sig := SignalledBy(b, ss, es);
    KernelRunInv(ss, es, 0);
    SameMembers(sig, ss[0].sync.queue(c));
    assert NoDup(ss[0].sync.queue(c));
  }

  ghost function OwnSteps(b: Tid, ss: seq<State>, es: seq<Event>): nat
    requires |ss| == |es| + 1
  {
    if es == [] then 0
    else
      var n := |es| - 1;
      OwnSteps(b, ss[..n + 1], es[..n]) + if es[n].Run? && ss[n].cpu.running == b then 1 else 0
  }

  lemma IsSignalling(pc: Pc, c: Cond)
    requires Broadcasting(pc, c)
    ensures Signalling(pc, c)
  {
  }

  /** A broadcast ends: it takes at most three steps of its own per waiter, and one more. */
  lemma {:induction false} BroadcastEnds(ss: seq<State>, es: seq<Event>, b: Tid, c: Cond)
    requires KernelRun(ss, es) && ss[0].sync.pc(b) == Broadcast(c)
    requires forall i :: 0 <= i < |es| ==> Broadcasting(ss[i].sync.pc(b), c)
    ensures OwnSteps(b, ss, es) + Left(ss[|es|].sync, b, c) <= 3 * |ss[0].sync.queue(c)| + 1
  {
    hide Inv, Step, Enabled, Broadcasting, Reachable;
    if es != [] {
      var n := |es| - 1;
      KernelRunPrefix(ss, es);
      KernelRunInv(ss, es, n);
      BroadcastEnds(ss[..n + 1], es[..n], b, c);
      if es[n].Run? && ss[n].cpu.running == b {
        BroadcastStep(ss[n], es[n], b, c);
      } else {
        IsSignalling(ss[n].sync.pc(b), c);
        OthersLeaveQueue(ss[n], es[n], b, c);
      }
    }
  }

  // ---------- the time slice ----------

  ghost function TicksIn(es: seq<Event>): nat {
    if es == [] then 0 else TicksIn(es[..|es| - 1]) + if es[|es| - 1].Tick? then 1 else 0
  }

  /** A step dispatches, or leaves the time slice to grow by the timer interrupts only. */
  lemma SliceStep(s: State, e: Event)
    requires Inv(s) && Enabled(s, e)
    ensures Topmost(Step(s, e).cpu, Step(s, e).sync.prio) ||
            Step(s, e).cpu.slice == s.cpu.slice + if e.Tick? then 1 else 0
  {
    var c, y := s.cpu, s.sync;
    match e {
      case Call(op) =>
      case Run(path, order) => RunKeeps(s, path, order);
      case Tick => TickSlice(c, y);
      case Create(t, p) => CreateSlice(c, y, t, p);
      case Exit => ScheduleTopmost(c.(status := Put(c.status, c.running, Dying)), y.prio);
    }
  }

  lemma TickSlice(c: Cpu, y: Sync)
    requires Scheduled(c, y) && Parked(y)
    ensures Topmost(TimerTick(c, y.prio), y.prio) || TimerTick(c, y.prio).slice == c.slice + 1
  {
    hide Scheduled, Parked, Topmost, Awake, YieldCpu;
    TickKeeps(c, y);
    TickAwakes(c, y);
    AwakeSlice(c.(ticks := c.ticks + 1, slice := c.slice + 1), y);
  }

  lemma AwakeSlice(c: Cpu, y: Sync)
    requires Scheduled(c, y)
    ensures Awake(c, y.prio).slice == c.slice
  {
    AwakeIs(c, y);
  }

  lemma CreateSlice(c: Cpu, y: Sync, t: Tid, p: int)
    requires Scheduled(c, y)
    ensures var y' := AddThread(y, t, p);
            Topmost(StartThread(c, y'.prio, t), y'.prio) || StartThread(c, y'.prio, t).slice == c.slice
  {
    var y' := AddThread(y, t, p);
    if y'.prio(t) > y'.prio(c.running) {
      ScheduleTopmost(Requeue(Unblock(c, y'.prio, t), y'.prio), y'.prio);
    }
  }

  lemma {:induction false} SliceGrows(ss: seq<State>, es: seq<Event>)
    requires KernelRun(ss, es)
    requires forall i :: 1 <= i < |ss| ==> !Topmost(ss[i].cpu, ss[i].sync.prio)
    ensures ss[|es|].cpu.slice == ss[0].cpu.slice + TicksIn(es)
  {
    hide Inv, Reachable, Step, Enabled, Topmost;
    if es != [] {
      var n := |es| - 1;
      KernelRunPrefix(ss, es);
      KernelRunInv(ss, es, n);
      SliceGrows(ss[..n + 1], es[..n]);
      SliceStep(ss[n], es[n]);
    }
  }

  /** In any stretch of a run with TIME_SLICE timer interrupts there is a moment at
      which nobody ready is more urgent than the running thread. */
  lemma BoundedGap(ss: seq<State>, es: seq<Event>)
    requires KernelRun(ss, es) && TicksIn(es) >= TIME_SLICE
    ensures exists i :: 1 <= i < |ss| && Topmost(ss[i].cpu, ss[i].sync.prio)
  {
    KernelRunInv(ss, es, |es|);
    if forall i :: 1 <= i < |ss| ==> !Topmost(ss[i].cpu, ss[i].sync.prio) {
      SliceGrows(ss, es);
    }
  }

  // ---------- the alarm clock ----------

  /** Apart from the timer interrupt no step touches a sleeper. */
  lemma ActSleeper(c: Cpu, prio: Total<Tid, int>, a: Action, t: Tid)
    requires t in c.sleeping && t != c.running
    ensures var c' := Act(c, prio, a); t in c'.sleeping && c'.wake(t) == c.wake(t) && c'.ticks == c.ticks
  {
  }

  /** A sleeper is woken by a step if and only if that step is a timer interrupt
      whose tick has reached its deadline; it is then ready or already running. */
  lemma SleeperStep(s: State, e: Event, t: Tid)
    requires Inv(s) && Enabled(s, e) && t in s.cpu.sleeping
    ensures var c' := Step(s, e).cpu;
            && (t !in c'.sleeping <==> e.Tick? && s.cpu.wake(t) <= c'.ticks)
            && (t in c'.sleeping ==> c'.wake(t) == s.cpu.wake(t))
            && (t !in c'.sleeping ==> t in c'.ready || t == c'.running)
            && c'.ticks == s.cpu.ticks + if e.Tick? then 1 else 0
  {
    var c, y := s.cpu, s.sync;
    RunningIsActive(c, y);
    if e.Tick? {
      TickSleeper(c, y, t);
    }
    hide Inv, Enabled, Exec, Act, TimerTick;
    if e.Run? {
      var (y', a) := Exec(y, c.running, e.path, e.order);
      ActSleeper(c, y'.prio, a, t);
    }
  }

  /** The interrupt without its yield on return. */
  lemma TickAwakes(c: Cpu, y: Sync)
    requires Scheduled(c, y)
    ensures var c1 := c.(ticks := c.ticks + 1, slice := c.slice + 1);
            Scheduled(c1, y)
  {
    var c1 := c.(ticks := c.ticks + 1, slice := c.slice + 1);
    BlockedFrame(c, c1, y);
  }

  /** Yielding loses nobody: a ready or running thread stays one. */
  lemma YieldLosesNobody(c: Cpu, prio: Total<Tid, int>, t: Tid)
    requires t in c.ready
    ensures t in YieldCpu(c, prio).ready || t == YieldCpu(c, prio).running
  {
    var c1 := Requeue(c, prio);
    InsertMembers(prio, c.ready, c.running);
    assert t in c1.ready;
    ScheduleIs(c1, prio);
    var c2 := Schedule(c1, prio);
    assert t in multiset(c1.ready);
    assert t in multiset{c2.running} + multiset(c2.ready);
  }

  lemma YieldFrame(c: Cpu, prio: Total<Tid, int>)
    ensures var c' := YieldCpu(c, prio); c'.sleeping == c.sleeping && c'.wake == c.wake && c'.ticks == c.ticks
  {
  }

  lemma TickSleeper(c: Cpu, y: Sync, t: Tid)
    requires Scheduled(c, y) && t in c.sleeping
    ensures var c' := TimerTick(c, y.prio);
            && (t in c'.sleeping <==> c.wake(t) > c.ticks + 1)
            && (t !in c'.sleeping ==> t in c'.ready || t == c'.running)
            && c'.wake == c.wake && c'.ticks == c.ticks + 1
  {
    hide Scheduled, Awake, YieldCpu, Filter, NotDue;
    var c1 := c.(ticks := c.ticks + 1, slice := c.slice + 1);
    TickAwakes(c, y);
    AwakeSleepers(c1, y);
    var c2 := Awake(c1, y.prio);
    assert t in c2.sleeping <==> c.wake(t) > c.ticks + 1;
    YieldFrame(c2, y.prio);
    if t in c2.ready {
      YieldLosesNobody(c2, y.prio, t);
    }
  }

  lemma TickOrder(c: Cpu, y: Sync)
    requires Scheduled(c, y)
    ensures TimerTick(c, y.prio).sleeping == Filter(NotDue(c.(ticks := c.ticks + 1)), c.sleeping)
  {
    hide Scheduled, Awake, YieldCpu, Filter;
    var c1 := c.(ticks := c.ticks + 1, slice := c.slice + 1);
    TickAwakes(c, y);
    AwakeSleepers(c1, y);
    assert NotDue(c1) == NotDue(c.(ticks := c.ticks + 1));
    YieldFrame(Awake(c1, y.prio), y.prio);
  }

  lemma AwakeSleepers(c: Cpu, y: Sync)
    requires Scheduled(c, y)
    ensures var c' := Awake(c, y.prio);
            && c'.sleeping == Filter(NotDue(c), c.sleeping) && c'.wake == c.wake && c'.ticks == c.ticks
            && (forall t :: t in c'.sleeping <==> t in c.sleeping && c.wake(t) > c.ticks)
            && (forall t :: t in c.sleeping && t !in c'.sleeping ==> t in c'.ready)
  {
    AwakeIs(c, y);
  }

  lemma RunNext(ss: seq<State>, es: seq<Event>, n: nat)
    requires KernelRun(ss, es) && n < |es|
    ensures Enabled(ss[n], es[n]) && ss[n + 1] == Step(ss[n], es[n])
  {
    hide Step, Enabled, Reachable;
  }

  /** Exactness over a run: a thread that fell asleep by ss[0] is still asleep if and
      only if no timer interrupt since has had a tick at or past its deadline. */
  lemma {:induction false} AlarmExact(ss: seq<State>, es: seq<Event>, t: Tid)
    requires KernelRun(ss, es) && t in ss[0].cpu.sleeping
    requires forall i :: 0 <= i < |es| ==> t in ss[i].cpu.sleeping
    ensures var c := ss[|es|].cpu;
            && c.ticks >= ss[0].cpu.ticks
            && (t in c.sleeping <==> c.ticks == ss[0].cpu.ticks || c.ticks < ss[0].cpu.wake(t))
            && (t in c.sleeping ==> c.wake(t) == ss[0].cpu.wake(t))
  {
    hide Inv, Step, Enabled, Reachable;
    if es != [] {
      var n := |es| - 1;
      KernelRunPrefix(ss, es);
      KernelRunInv(ss, es, n);
      AlarmExact(ss[..n + 1], es[..n], t);
      RunNext(ss, es, n);
      SleeperStep(ss[n], es[n], t);
    }
  }

  /** After each timer interrupt the sleepers are those with later deadlines, in the order they were in. */
  lemma SleepersAfterTick(s: State)
    requires Reachable(s)
    ensures var c' := Step(s, Tick).cpu;
            && (forall t :: t in c'.sleeping ==> c'.wake(t) > c'.ticks)
            && c'.sleeping == Filter(NotDue(s.cpu.(ticks := s.cpu.ticks + 1)), s.cpu.sleeping)
  {
    hide Inv, Scheduled, TimerTick, Reachable;
    ReachableInv(s);
    InvParts(s);
    TickOrder(s.cpu, s.sync);
    var c' := Step(s, Tick).cpu;
    FilterMembers(NotDue(s.cpu.(ticks := s.cpu.ticks + 1)), s.cpu.sleeping);
    forall t | t in c'.sleeping ensures c'.wake(t) > c'.ticks {
      TickSleeper(s.cpu, s.sync, t);
    }
  }

  // ---------- timer_sleep from its call on ----------

  /** A thread inside a primitive stays at its point until it runs. */
  lemma StaysThere(s: State, e: Event, r: Tid)
    requires Inv(s) && Enabled(s, e) && s.sync.pc(r) != User && !(e.Run? && s.cpu.running == r)
    ensures Step(s, e).sync.pc(r) == s.sync.pc(r)
  {
    hide Exec, Scheduled, Parked;
    ActiveThread(s, r);
    if e.Run? {
      ExecMovesOne(s.sync, s.cpu.running, e.path, e.order, r);
    }
  }

  lemma ActiveThread(s: State, r: Tid)
    requires Inv(s) && s.sync.pc(r) != User
    ensures r in s.sync.threads
  {
  }

  lemma {:induction false} AboutToSleep(ss: seq<State>, es: seq<Event>, r: Tid, d: int)
    requires KernelRun(ss, es) && ss[0].sync.pc(r) == Sleep(d)
    requires forall i :: 0 <= i < |es| ==> !(es[i].Run? && ss[i].cpu.running == r)
    ensures ss[|es|].sync.pc(r) == Sleep(d)
  {
    hide Inv, Enabled, Step, Reachable;
    if es != [] {
      var n := |es| - 1;
      KernelRunPrefix(ss, es);
      KernelRunInv(ss, es, n);
      var ss', es' := ss[..|es|], es[..n];
      assert forall i :: 0 <= i < |ss'| ==> ss'[i] == ss[i];
      AboutToSleep(ss', es', r, d);
      assert ss'[|es'|] == ss[n];
      StaysThere(ss[n], es[n], r);
    }
  }

  lemma {:induction false} KernelRunFrom(ss: seq<State>, es: seq<Event>, i: nat)
    requires KernelRun(ss, es) && i <= |es|
    ensures KernelRun(ss[i..], es[i..])
  {
    hide Reachable, Enabled, Step;
    if i > 0 {
      KernelRunFrom(ss, es, i - 1);
      assert Enabled(ss[i - 1], es[i - 1]) && ss[i] == Step(ss[i - 1], es[i - 1]);
      assert Reachable(ss[i - 1]) by {
        assert ss[i - 1..][0] == ss[i - 1];
      }
      ReachableStep(ss[i - 1], es[i - 1]);
    } else {
      assert ss[0..] == ss && es[0..] == es;
    }
  }

  /** timer_sleep (n), called at ss[0] by r, which goes to sleep in the step to ss[j + 1]:
      from there on r is asleep exactly as long as no timer interrupt has had a tick at or
      past the clock at the call plus n. */
  lemma SleepExact(ss: seq<State>, es: seq<Event>, r: Tid, n: int, j: nat)
    requires KernelRun(ss, es) && 1 <= j < |es| && r == ss[0].cpu.running
    requires es[0] == Call(Sleep(ss[0].cpu.ticks + n))
    requires forall i :: 1 <= i < j ==> !(es[i].Run? && ss[i].cpu.running == r)
    requires es[j].Run? && ss[j].cpu.running == r
    requires forall i :: j < i < |es| ==> r in ss[i].cpu.sleeping
    ensures r in ss[j + 1].cpu.sleeping
    ensures var c := ss[|es|].cpu;
            r in c.sleeping <==> c.ticks == ss[j + 1].cpu.ticks || c.ticks < ss[0].cpu.ticks + n
  {
    hide Inv, Reachable, Act, Exec;
    var d := ss[0].cpu.ticks + n;
    var pre, pres := ss[1..j + 1], es[1..j];
    KernelRunFrom(ss, es, 1);
    CutRun(ss[1..], es[1..], j - 1);
    assert ss[1..][..j] == pre && es[1..][..j - 1] == pres;
    CalledSleep(ss[0], d);
    AboutToSleep(pre, pres, r, d);
    KernelRunFrom(ss, es, j);
    FallsAsleepHere(ss[j], es[j], d);
    KernelRunFrom(ss, es, j + 1);
    var post, posts := ss[j + 1..], es[j + 1..];
    assert post[0] == ss[j + 1] && post[|posts|] == ss[|es|];
    assert forall i :: 0 <= i < |posts| ==> post[i] == ss[j + 1 + i];
    AlarmExact(post, posts, r);
  }

  lemma CutRun(ss: seq<State>, es: seq<Event>, n: nat)
    requires KernelRun(ss, es) && n <= |es|
    ensures KernelRun(ss[..n + 1], es[..n])
  {
    hide Reachable, Enabled, Step;
  }

  lemma CalledSleep(s: State, d: int)
    ensures Step(s, Call(Sleep(d))).sync.pc(s.cpu.running) == Sleep(d)
  {
  }

  lemma FallsAsleepHere(s: State, e: Event, d: int)
    requires Reachable(s) && e.Run? && s.sync.pc(s.cpu.running) == Sleep(d)
    ensures s.cpu.running in Step(s, e).cpu.sleeping && Step(s, e).cpu.wake(s.cpu.running) == d
  {
    SleepsUntil(s, d, e.path, e.order);
  }
}
