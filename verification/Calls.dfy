/**
 What a primitive has done when it returns, whoever ran between the call and the
 return. A call is told by its event, its return by the caller being outside the
 primitives again.
 */
module Calls {
  import opened Lists
  import opened Machine
  import opened Parking
  import opened Ownership
  import opened Donation
  import opened Conditions
  import opened Invariant
  import opened Runs

  /** r calls op in the first step and has not returned before the last state. */
  ghost predicate InCall(ss: seq<State>, es: seq<Event>, r: Tid, op: Pc) {
    && KernelRun(ss, es) && |ss| == |es| + 1 && es != [] && es[0] == Call(op) && ss[0].cpu.running == r
    && forall i :: 1 <= i < |es| ==> ss[i].sync.pc(r) != User
  }

  /** The event es[n] is a step of r's own code. */
  ghost predicate IsOwn(ss: seq<State>, es: seq<Event>, r: Tid, n: nat)
    requires n < |es| <= |ss|
  {
    es[n].Run? && ss[n].cpu.running == r
  }

  lemma CallStarts(ss: seq<State>, es: seq<Event>, r: Tid, op: Pc)
    requires InCall(ss, es, r, op)
    ensures Inv(ss[0]) && CallOk(ss[0].sync, r, op) && ss[1] == ss[0].(sync := Move(ss[0].sync, r, op))
  {
    KernelRunInv(ss, es, 0);
    RunNext(ss, es, 0);
  }

  /** The call up to the state before the last, and the step from there. */
  lemma CallPrefix(ss: seq<State>, es: seq<Event>, r: Tid, op: Pc)
    requires InCall(ss, es, r, op) && |es| > 1
    ensures var n := |es| - 1;
            && InCall(ss[..n + 1], es[..n], r, op) && ss[..n + 1][n] == ss[n] && ss[..n + 1][0] == ss[0]
            && Inv(ss[n]) && Enabled(ss[n], es[n]) && ss[n + 1] == Step(ss[n], es[n]) && ss[n].sync.pc(r) != User
            && (IsOwn(ss, es, r, n) || ss[n + 1].sync.pc(r) == ss[n].sync.pc(r))
  {
    hide Inv, Enabled, Step, Reachable;
    var n := |es| - 1;
    KernelRunInv(ss, es, n);
    KernelRunPrefix(ss, es);
    RunNext(ss, es, n);
    if !IsOwn(ss, es, r, n) {
      StaysThere(ss[n], es[n], r);
    }
  }

  // ---------- lock_acquire ----------

  /** In lock_acquire for l. */
  predicate Acquiring(pc: Pc, l: LockId) {
    pc == Acquire(l) || AwaitsLock(pc, l) || pc == Own(l, false)
  }

  /** A thread leaves lock_acquire only as the holder of the lock. */
  lemma AcquireStep(s: State, path: seq<Tid>, order: seq<Tid>, l: LockId)
    requires Inv(s) && Acquiring(s.sync.pc(s.cpu.running), l)
    ensures var y', r := Step(s, Run(path, order)).sync, s.cpu.running;
            Acquiring(y'.pc(r), l) || (y'.pc(r) == User && y'.holder(l) == Some(r))
  {
    hide Inv, Insert, Act;
  }

  /** lock_acquire returns with the lock: until then its caller is inside it, and then it is the holder. */
  lemma {:induction false} AcquireReturns(ss: seq<State>, es: seq<Event>, r: Tid, l: LockId)
    requires InCall(ss, es, r, Acquire(l))
    ensures var y := ss[|es|].sync; Acquiring(y.pc(r), l) || (y.pc(r) == User && y.holder(l) == Some(r))
  {
    hide Inv, Enabled, Step, Reachable, KernelRun;
    CallStarts(ss, es, r, Acquire(l));
    if |es| > 1 {
      var n := |es| - 1;
      CallPrefix(ss, es, r, Acquire(l));
      AcquireReturns(ss[..n + 1], es[..n], r, l);
      if IsOwn(ss, es, r, n) {
        AcquireStep(ss[n], es[n].path, es[n].order, l);
      }
    }
  }

  // ---------- lock_try_acquire ----------

  lemma TryStep(s: State, path: seq<Tid>, order: seq<Tid>, l: LockId)
    requires Inv(s)
    ensures var y, y', r := s.sync, Step(s, Run(path, order)).sync, s.cpu.running;
            && (y.pc(r) == TryAcquire(l) ==>
                  if y.value(OfLock(l)) > 0 then y'.pc(r) == Own(l, true)
                  else y'.pc(r) == User && y'.holder(l) != Some(r))
            && (y.pc(r) == Own(l, true) ==> y'.pc(r) == User && y'.holder(l) == Some(r))
  {
    hide Inv, Held, Act;
    InvHeld(s);
    HeldAt(s.sync, s.cpu.running);
  }

  /** es[j] is the first step of r's own code. */
  ghost predicate FirstOwn(ss: seq<State>, es: seq<Event>, r: Tid, j: nat)
    requires |ss| == |es| + 1
  {
    j < |es| && IsOwn(ss, es, r, j) && forall i :: 0 <= i < j ==> !IsOwn(ss, es, r, i)
  }

  /** lock_try_acquire returns with the lock if and only if its semaphore was up when it tried;
      if it was not, it returns at once. */
  lemma {:induction false} TryReturns(ss: seq<State>, es: seq<Event>, r: Tid, l: LockId, j: nat)
    requires InCall(ss, es, r, TryAcquire(l)) && FirstOwn(ss, es, r, j)
    ensures var y, up := ss[|es|].sync, ss[j].sync.value(OfLock(l)) > 0;
            && (y.pc(r) == User ==> (y.holder(l) == Some(r) <==> up))
            && (y.pc(r) != User ==> up && y.pc(r) == Own(l, true))
            && (!up ==> |es| == j + 1)
  {
    hide Inv, Enabled, Step, Reachable, KernelRun;
    CallStarts(ss, es, r, TryAcquire(l));
    var n := |es| - 1;
    if n > 0 {
      CallPrefix(ss, es, r, TryAcquire(l));
      var ss', es' := ss[..n + 1], es[..n];
      forall i | 0 <= i < n ensures IsOwn(ss', es', r, i) <==> IsOwn(ss, es, r, i) {
        assert ss'[i] == ss[i] && es'[i] == es[i];
      }
      if j < n {
        assert FirstOwn(ss', es', r, j);
        TryReturns(ss', es', r, l, j);
      } else {
        StillTrying(ss', es', r, l);
      }
      if IsOwn(ss, es, r, n) {
        TryStep(ss[n], es[n].path, es[n].order, l);
      }
    }
  }

  lemma {:induction false} StillTrying(ss: seq<State>, es: seq<Event>, r: Tid, l: LockId)
    requires InCall(ss, es, r, TryAcquire(l)) && forall i :: 0 <= i < |es| ==> !IsOwn(ss, es, r, i)
    ensures ss[|es|].sync.pc(r) == TryAcquire(l)
  {
    hide Inv, Enabled, Step, Reachable, KernelRun;
    CallStarts(ss, es, r, TryAcquire(l));
    if |es| > 1 {
      var n := |es| - 1;
      CallPrefix(ss, es, r, TryAcquire(l));
      assert !IsOwn(ss, es, r, n);
      var ss', es' := ss[..n + 1], es[..n];
      forall i | 0 <= i < n ensures !IsOwn(ss', es', r, i) {
        assert ss'[i] == ss[i] && es'[i] == es[i] && !IsOwn(ss, es, r, i);
      }
      StillTrying(ss', es', r, l);
    }
  }

  // ---------- cond_wait ----------

  /** In cond_wait on c before its lock_acquire. */
  predicate BeforeAcquire(pc: Pc, c: Cond) {
    pc == CondWait(c) || InWait(pc, c)
  }

  lemma WaitStep(s: State, path: seq<Tid>, order: seq<Tid>, c: Cond)
    requires Inv(s) && BeforeAcquire(s.sync.pc(s.cpu.running), c)
    ensures var q := Step(s, Run(path, order)).sync.pc(s.cpu.running); InWait(q, c) || q == Acquire(c.lock)
  {
    hide Inv, Insert, Sort, Act, Filter;
  }

  /** cond_wait returns with the lock. */
  lemma {:induction false} WaitReturns(ss: seq<State>, es: seq<Event>, r: Tid, c: Cond)
    requires InCall(ss, es, r, CondWait(c))
    ensures var y := ss[|es|].sync;
            BeforeAcquire(y.pc(r), c) || Acquiring(y.pc(r), c.lock) || (y.pc(r) == User && y.holder(c.lock) == Some(r))
  {
    hide Inv, Enabled, Step, Reachable, KernelRun;
    CallStarts(ss, es, r, CondWait(c));
    if |es| > 1 {
      var n := |es| - 1;
      CallPrefix(ss, es, r, CondWait(c));
      WaitReturns(ss[..n + 1], es[..n], r, c);
      if IsOwn(ss, es, r, n) {
        if BeforeAcquire(ss[n].sync.pc(r), c) {
          WaitStep(ss[n], es[n].path, es[n].order, c);
        } else {
          AcquireStep(ss[n], es[n].path, es[n].order, c.lock);
        }
      }
    }
  }

  /** The event es[i] is the sema_up of a cond_signal on c that has chosen r. */
  ghost predicate Signals(ss: seq<State>, es: seq<Event>, i: nat, c: Cond, r: Tid)
    requires i < |es| <= |ss|
  {
    es[i].Run? && var pc := ss[i].sync.pc(ss[i].cpu.running);
    pc.SignalUp? && pc.cond == c && pc.chosen == r
  }

  ghost predicate WasSignalled(ss: seq<State>, es: seq<Event>, c: Cond, r: Tid)
    requires |ss| == |es| + 1
  {
    exists i :: 0 <= i < |es| && Signals(ss, es, i, c, r)
  }

  /** What raises the semaphore of a thread in cond_wait on c is a signal on c that chose it. */
  lemma RaisedBySignal(s: State, e: Event, c: Cond, r: Tid)
    requires Inv(s) && Enabled(s, e) && InWait(s.sync.pc(r), c)
    requires Step(s, e).sync.value(OfWaiter(r)) > s.sync.value(OfWaiter(r))
    ensures e.Run? && var pc := s.sync.pc(s.cpu.running); pc.SignalUp? && pc.cond == c && pc.chosen == r
  {
    hide Inv, Queues, Step, Enabled;
    assert !Inits(s, e, OfWaiter(r));
    StepAccount(s, e, OfWaiter(r));
    InvQueues(s);
    var u := s.cpu.running;
    SignallerAt(s.sync, u);
    OneWait(s.sync.pc(r), c, s.sync.pc(u).cond);
  }

  lemma InvQueues(s: State)
    requires Inv(s)
    ensures Queues(s.sync)
  {
  }

  /** What a step of r itself does to its semaphore before its lock_acquire. */
  lemma OwnSemaphore(s: State, path: seq<Tid>, order: seq<Tid>, c: Cond)
    requires BeforeAcquire(s.sync.pc(s.cpu.running), c)
    ensures var y, y', r := s.sync, Step(s, Run(path, order)).sync, s.cpu.running;
            && (y.pc(r) == CondWait(c) ==> y'.value(OfWaiter(r)) == 0)
            && (InWait(y.pc(r), c) ==> y'.value(OfWaiter(r)) <= y.value(OfWaiter(r)))
            && (y'.pc(r) == Acquire(c.lock) ==> InWait(y.pc(r), c) && y.value(OfWaiter(r)) > 0)
  {
    hide Insert, Sort, Act, Filter;
  }

  /** A thread gets past the sema_down of cond_wait only after a signal on that condition has chosen it. */
  lemma {:induction false} WaitIsSignalled(ss: seq<State>, es: seq<Event>, r: Tid, c: Cond)
    requires InCall(ss, es, r, CondWait(c))
    ensures BeforeAcquire(ss[|es|].sync.pc(r), c) || WasSignalled(ss, es, c, r)
    ensures InWait(ss[|es|].sync.pc(r), c) && ss[|es|].sync.value(OfWaiter(r)) > 0 ==> WasSignalled(ss, es, c, r)
  {
    hide Inv, Enabled, Step, Reachable, KernelRun;
    CallStarts(ss, es, r, CondWait(c));
    if |es| > 1 {
      var n := |es| - 1;
      CallPrefix(ss, es, r, CondWait(c));
      var ss', es' := ss[..n + 1], es[..n];
      WaitIsSignalled(ss', es', r, c);
      if WasSignalled(ss', es', c, r) {
        var i :| 0 <= i < |es'| && Signals(ss', es', i, c, r);
        assert Signals(ss, es, i, c, r);
      } else if IsOwn(ss, es, r, n) {
        OwnSemaphore(ss[n], es[n].path, es[n].order, c);
        WaitStep(ss[n], es[n].path, es[n].order, c);
      } else if InWait(ss[n].sync.pc(r), c) && ss[n + 1].sync.value(OfWaiter(r)) > 0 {
        RaisedBySignal(ss[n], es[n], c, r);
        assert Signals(ss, es, n, c, r);
      }
    }
  }

  // ---------- cond_signal ----------

  lemma SignalStarts(s: State, path: seq<Tid>, order: seq<Tid>, c: Cond)
    requires Enabled(s, Run(path, order)) && s.sync.pc(s.cpu.running) == Signal(c, false)
    ensures var y, y', r := s.sync, Step(s, Run(path, order)).sync, s.cpu.running;
            if y.queue(c) == [] then y'.pc(r) == User && y'.queue(c) == []
            else y'.pc(r).SignalUp? && y'.pc(r) == SignalUp(c, y'.pc(r).chosen, false)
                 && multiset(y.queue(c)) == multiset{y'.pc(r).chosen} + multiset(y'.queue(c))
  {
    hide Sort, Act, Queued;
    SameSize(order, s.sync.queue(c));
    if order != [] {
      assert order == [order[0]] + order[1..];
    }
  }

  lemma SignalEnds(s: State, path: seq<Tid>, order: seq<Tid>, c: Cond, t: Tid)
    requires s.sync.pc(s.cpu.running) == SignalUp(c, t, false)
    ensures var y' := Step(s, Run(path, order)).sync; y'.pc(s.cpu.running) == User && y'.queue == s.sync.queue
  {
    hide Sort, Act;
  }

  /** How far a cond_signal on c by r has come: q is the queue at the call, sig whom r has
      signalled since, and steps the steps it has taken. */
  ghost predicate SignalledSoFar(y: Sync, r: Tid, c: Cond, q: seq<Tid>, sig: seq<Tid>, steps: nat) {
    if y.pc(r) == Signal(c, false) then sig == [] && y.queue(c) == q && steps == 0
    else if y.pc(r).SignalUp? then
      && y.pc(r) == SignalUp(c, y.pc(r).chosen, false) && q != [] && sig == [] && steps == 1
      && multiset(q) == multiset{y.pc(r).chosen} + multiset(y.queue(c))
    else
      && y.pc(r) == User
      && if q == [] then sig == [] && y.queue(c) == [] && steps == 1
         else |sig| == 1 && multiset(q) == multiset{sig[0]} + multiset(y.queue(c)) && steps == 2
  }

  lemma {:induction false} SignalProceeds(ss: seq<State>, es: seq<Event>, r: Tid, c: Cond)
    requires InCall(ss, es, r, Signal(c, false))
    ensures SignalledSoFar(ss[|es|].sync, r, c, ss[0].sync.queue(c), SignalledBy(r, ss, es), OwnSteps(r, ss, es))
  {
    hide Inv, Enabled, Step, Reachable, KernelRun;
    CallStarts(ss, es, r, Signal(c, false));
    var n := |es| - 1;
    if n > 0 {
      CallPrefix(ss, es, r, Signal(c, false));
      SignalProceeds(ss[..n + 1], es[..n], r, c);
      if IsOwn(ss, es, r, n) {
        if ss[n].sync.pc(r).SignalUp? {
          SignalEnds(ss[n], es[n].path, es[n].order, c, ss[n].sync.pc(r).chosen);
        } else {
          assert es[n] == Run(es[n].path, es[n].order);
          SignalStarts(ss[n], es[n].path, es[n].order, c);
        }
      } else {
        OthersLeaveQueue(ss[n], es[n], r, c);
      }
    }
  }

  /** When cond_signal has returned, it has signalled nobody if nobody was queued, and otherwise
      one thread, which alone has left the queue; it has taken at most two steps. */
  lemma SignalReturns(ss: seq<State>, es: seq<Event>, r: Tid, c: Cond)
    requires InCall(ss, es, r, Signal(c, false))
    ensures OwnSteps(r, ss, es) <= 2
    ensures var q, q', sig := ss[0].sync.queue(c), ss[|es|].sync.queue(c), SignalledBy(r, ss, es);
            ss[|es|].sync.pc(r) == User ==>
              if q == [] then sig == [] && q' == []
              else |sig| == 1 && multiset(q) == multiset{sig[0]} + multiset(q')
  {
    SignalProceeds(ss, es, r, c);
  }

  // ---------- what a call takes and gives ----------

  /** By how much r's own steps have changed the value of sm. */
  ghost function OwnEffect(r: Tid, ss: seq<State>, es: seq<Event>, sm: Sema): int
    requires |ss| == |es| + 1
  {
    if es == [] then 0
    else
      var n := |es| - 1;
      OwnEffect(r, ss[..n + 1], es[..n], sm)
      + if IsOwn(ss, es, r, n) then ss[n + 1].sync.value(sm) - ss[n].sync.value(sm) else 0
  }

  function One(b: bool): int {
    if b then 1 else 0
  }

  /** What a thread at pc is still to add to sm before it returns. */
  function Owed(pc: Pc, sm: Sema): int {
    match pc
    case PlainDown(n, _) => -One(sm == Named(n))
    case PlainUp(n) => One(sm == Named(n))
    case Acquire(l) => -One(sm == OfLock(l))
    case LockDown(l, _) => -One(sm == OfLock(l))
    case Release(l, next) => One(sm == OfLock(l)) - One(next.WaitOn? && sm == OfLock(next.cond.lock))
    case ReleaseUp(l, next) => One(sm == OfLock(l)) - One(next.WaitOn? && sm == OfLock(next.cond.lock))
    case WaitDown(c, _) => -One(sm == OfLock(c.lock))
    case _ => 0
  }

  /** Where the five larger steps lead. */
  lemma DownGoes(y: Sync, r: Tid, sm: Sema)
    ensures Down(y, r, sm).0.pc(r) == if y.value(sm) == 0 then Park(y.pc(r)) else AfterDown(y.pc(r))
  {
    hide Insert;
  }

  lemma UpGoes(y: Sync, r: Tid, sm: Sema)
    ensures Up(y, r, sm).0.pc(r) == AfterUp(y.pc(r))
  {
    hide Sort;
  }

  lemma AcquireGoes(y: Sync, r: Tid, l: LockId, path: seq<Tid>)
    requires y.holder(l).Some? ==> y.value(OfLock(l)) == 0
    ensures StartAcquire(y, r, l, path).0.pc(r) == LockDown(l, y.holder(l).Some?)
  {
    hide Insert;
  }

  lemma ReleaseGoes(y: Sync, r: Tid, l: LockId, next: Then)
    ensures Unhold(y, r, l, next).pc(r) == ReleaseUp(l, next)
  {
    hide Sort, Filter, Freed, Kept;
  }

  lemma AssignGoes(y: Sync, r: Tid, p: int)
    ensures Assign(y, r, p).pc(r) == User
  {
    hide Sort;
  }

  /** A step pays what it no longer owes. */
  lemma ExecOwed(y: Sync, r: Tid, path: seq<Tid>, order: seq<Tid>, sm: Sema)
    requires !sm.OfWaiter? && !Tries(y.pc(r)) && y.pc(r) != User
    requires y.pc(r).Acquire? && y.holder(y.pc(r).lock).Some? ==> y.value(OfLock(y.pc(r).lock)) == 0
    ensures var y' := Exec(y, r, path, order).0;
            y'.value(sm) - y.value(sm) + Owed(y'.pc(r), sm) == Owed(y.pc(r), sm) && !Tries(y'.pc(r))
  {
    hide Down, Up, StartAcquire, Unhold, Assign;
    ExecAccount(y, r, path, order, sm);
    match y.pc(r) {
      case PlainDown(n, _) => DownGoes(y, r, Named(n));
      case LockDown(l, _) => DownGoes(y, r, OfLock(l));
      case WaitDown(_, _) => DownGoes(y, r, OfWaiter(r));
      case PlainUp(n) => UpGoes(y, r, Named(n));
      case ReleaseUp(l, _) => UpGoes(y, r, OfLock(l));
      case SignalUp(_, t, _) => UpGoes(y, r, OfWaiter(t));
      case Acquire(l) => AcquireGoes(y, r, l, path);
      case Release(l, next) => ReleaseGoes(y, r, l, next);
      case SetPriority(p) => AssignGoes(y, r, p);
      case _ =>
    }
  }

  /** Before the decrement that may not happen. */
  predicate Tries(pc: Pc) {
    pc.PlainTry? || pc.TryAcquire?
  }

  lemma AcquiresClosed(s: State)
    requires Inv(s)
    ensures forall l :: s.sync.holder(l).Some? ==> s.sync.value(OfLock(l)) == 0
  {
    hide Exclusive;
    forall l | s.sync.holder(l).Some? ensures s.sync.value(OfLock(l)) == 0 {
      HolderIsThread(s.sync, l);
      OwnedIsZero(s.sync, l, s.sync.holder(l).value);
    }
  }

  /** Over a call, the caller's own steps take and give each semaphore of a lock or of a program
      exactly what the primitive promises: nothing more can be owed when it has returned. */
  lemma {:induction false} CallEffect(ss: seq<State>, es: seq<Event>, r: Tid, op: Pc, sm: Sema)
    requires InCall(ss, es, r, op) && !Tries(op) && !sm.OfWaiter?
    ensures OwnEffect(r, ss, es, sm) + Owed(ss[|es|].sync.pc(r), sm) == Owed(op, sm) && !Tries(ss[|es|].sync.pc(r))
  {
    hide Inv, Enabled, Reachable, KernelRun, Exec, Act, Owed;
    CallStarts(ss, es, r, op);
    var n := |es| - 1;
    if n > 0 {
      CallPrefix(ss, es, r, op);
      CallEffect(ss[..n + 1], es[..n], r, op, sm);
      if IsOwn(ss, es, r, n) {
        AcquiresClosed(ss[n]);
        ExecOwed(ss[n].sync, r, es[n].path, es[n].order, sm);
      }
    } else {
      assert ss[..1] == [ss[0]] && es[..0] == [];
    }
  }

  // ---------- how long a call takes ----------

  /** How many steps of its own a thread at pc still takes at most, where it waits for nobody. */
  function StepsLeft(pc: Pc): nat {
    match pc
    case User => 0
    case TryAcquire(_) => 2
    case Release(_, _) => 2
    case Signal(_, _) => 2
    case Sleep(_) => 2
    case _ => 1
  }

  /** Inside a primitive that neither waits for a semaphore nor loops. */
  predicate Quick(pc: Pc) {
    match pc
    case PlainTry(_) => true
    case PlainUp(_) => true
    case TryAcquire(_) => true
    case Own(_, _) => true
    case Release(_, next) => next == Return
    case ReleaseUp(_, next) => next == Return
    case Signal(_, more) => !more
    case SignalUp(_, _, more) => !more
    case SetPriority(_) => true
    case Yield => true
    case Sleep(_) => true
    case Asleep => true
    case _ => false
  }

  lemma ExecIsQuick(y: Sync, r: Tid, path: seq<Tid>, order: seq<Tid>)
    requires Quick(y.pc(r))
    ensures var q := Exec(y, r, path, order).0.pc(r); (q == User || Quick(q)) && StepsLeft(q) < StepsLeft(y.pc(r))
  {
    hide Up, Unhold, Assign;
    match y.pc(r) {
      case PlainUp(n) => UpGoes(y, r, Named(n));
      case ReleaseUp(l, _) => UpGoes(y, r, OfLock(l));
      case SignalUp(_, t, _) => UpGoes(y, r, OfWaiter(t));
      case Release(l, next) => ReleaseGoes(y, r, l, next);
      case SetPriority(p) => AssignGoes(y, r, p);
      case _ =>
    }
  }

  /** sema_up, sema_try_down, lock_try_acquire, lock_release, cond_signal, thread_set_priority,
      thread_yield and timer_sleep return after at most two steps of their caller. */
  lemma {:induction false} ReturnsWithin(ss: seq<State>, es: seq<Event>, r: Tid, op: Pc)
    requires InCall(ss, es, r, op) && Quick(op)
    ensures OwnSteps(r, ss, es) + StepsLeft(ss[|es|].sync.pc(r)) <= StepsLeft(op) <= 2
    ensures ss[|es|].sync.pc(r) == User || Quick(ss[|es|].sync.pc(r))
  {
    hide Inv, Enabled, Reachable, KernelRun, Exec, Act, Quick, StepsLeft;
    CallStarts(ss, es, r, op);
    AtMostTwo(op);
    var n := |es| - 1;
    if n > 0 {
      CallPrefix(ss, es, r, op);
      ReturnsWithin(ss[..n + 1], es[..n], r, op);
      if IsOwn(ss, es, r, n) {
        ExecIsQuick(ss[n].sync, r, es[n].path, es[n].order);
      }
    } else {
      assert ss[..1] == [ss[0]] && es[..0] == [];
    }
  }

  lemma AtMostTwo(pc: Pc)
    ensures StepsLeft(pc) <= 2
  {
  }
}
