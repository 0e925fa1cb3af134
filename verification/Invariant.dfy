/** What holds in every state of every run of the kernel. */
module Invariant {
  import opened Lists
  import opened Machine
  import opened Parking
  import opened Ownership
  import opened Donation
  import opened Chains
  import opened Conditions
  import opened Dispatch

  ghost predicate SyncInv(y: Sync) {
    && Parked(y) && NoLostWakeup(y) && Exclusive(y) && Held(y) && Graph(y) && Acyclic(y)
    && Queues(y) && OnlySignalled(y)
  }

  ghost predicate Inv(s: State) {
    SyncInv(s.sync) && Scheduled(s.cpu, s.sync) && s.cpu.slice < TIME_SLICE
  }

  // ---------- start ----------

  lemma BootIsAcyclic(y: Sync)
    requires forall t :: y.waiting(t) == None
    ensures Acyclic(y)
  {
    forall t ensures Ends(y.waiting, y.holder, t) {
      assert IsChain(y.waiting, y.holder, t, [t]);
    }
  }

  lemma BootInv(s: State)
    requires Boot(s)
    ensures Inv(s)
  {
    hide Boot, SyncInv, Scheduled;
    BootSync(s);
    BootCpu(s);
  }

  lemma BootSync(s: State)
    requires Boot(s)
    ensures SyncInv(s.sync)
  {
    var y := s.sync;
    BootIsAcyclic(y);
    forall l ensures |OwnersOf(y, l)| + y.value(OfLock(l)) == 1 {
      assert OwnersOf(y, l) == {};
    }
  }

  lemma BootCpu(s: State)
    requires Boot(s)
    ensures Scheduled(s.cpu, s.sync) && s.cpu.slice < TIME_SLICE
  {
    var c, y := s.cpu, s.sync;
    forall t | t in y.threads && c.status(t) == Blocked ensures Placed(c, y, t) {
      assert t == c.idle;
    }
  }

  // ---------- each step ----------

  lemma CallKeeps(s: State, op: Pc)
    requires Inv(s) && Enabled(s, Call(op))
    ensures Inv(Step(s, Call(op)))
  {
    hide Parked, NoLostWakeup, Exclusive, Held, Graph, Acyclic, Queues, OnlySignalled, WokenInWait;
    var c, y, r := s.cpu, s.sync, s.cpu.running;
    var y' := Move(y, r, op);
    RunningIsActive(c, y);
    ActiveWaitsForNothing(y, r);
    ParkedMove(y, y', r, op);
    WakeMove(y, y', r, op);
    CallKeepsOwnership(y, r, op);
    GraphMove(y, y', r, op);
    AcyclicShrinks(y, y');
    CallKeepsQueues(y, r, op);
    forall t ensures WokenInWait(y', t) ==> y'.value(OfWaiter(t)) > 0 {
      MoveKeepsSignalled(y, y', r, t);
    }
    SignalledIs(y');
    StayKeeps(c, y, y');
  }

  lemma RunKeeps(s: State, path: seq<Tid>, order: seq<Tid>)
    requires Inv(s) && Enabled(s, Run(path, order))
    ensures Inv(Step(s, Run(path, order)))
    ensures var (y', a) := Exec(s.sync, s.cpu.running, path, order);
            a != Stay ==> Topmost(Step(s, Run(path, order)).cpu, y'.prio)
  {
    hide Parked, NoLostWakeup, Exclusive, Held, Graph, Acyclic, Queues, OnlySignalled, Exec;
    var c, y, r := s.cpu, s.sync, s.cpu.running;
    var (y', a) := Exec(y, r, path, order);
    RunningIsActive(c, y);
    RunKeepsParking(y, r, path, order);
    RunKeepsOwnership(y, r, path, order);
    RunKeepsGraph(y, r, path, order);
    RunKeepsAcyclic(y, r, path, order);
    RunKeepsQueues(y, r, path, order);
    RunKeepsSignalled(y, r, path, order);
    RunFits(y, r, path, order);
    ActKeeps(c, y, y', a);
    ActSlice(c, y'.prio, a);
  }

  /** Between timer interrupts the time slice never grows. */
  lemma ActSlice(c: Cpu, prio: Total<Tid, int>, a: Action)
    ensures Act(c, prio, a).slice <= c.slice
    ensures a == Stay ==> Act(c, prio, a).slice == c.slice
  {
  }

  lemma CreateKeeps(s: State, t: Tid, p: int)
    requires Inv(s) && Enabled(s, Create(t, p))
    ensures Inv(Step(s, Create(t, p)))
  {
    hide Parked, NoLostWakeup, Exclusive, Held, Graph, Acyclic, Queues, OnlySignalled, Scheduled;
    var c, y := s.cpu, s.sync;
    AddKeepsParking(y, t, p);
    AddKeepsOwnership(y, t, p);
    AddKeepsGraph(y, t, p);
    AddKeepsQueues(y, t, p);
    AddKeepsSignalled(y, t, p);
    AddKeepsAcyclic(y, t, p);
    StartThreadKeeps(c, y, t, p);
  }

  lemma AddKeepsAcyclic(y: Sync, t: Tid, p: int)
    requires Acyclic(y)
    ensures Acyclic(AddThread(y, t, p))
  {
    AcyclicShrinks(y, AddThread(y, t, p));
  }

  lemma StepKeeps(s: State, e: Event)
    requires Inv(s) && Enabled(s, e)
    ensures Inv(Step(s, e))
  {
    match e {
      case Call(op) => CallKeeps(s, op);
      case Run(path, order) => RunKeeps(s, path, order);
      case Tick => TickKeeps(s.cpu, s.sync);
      case Create(t, p) => CreateKeeps(s, t, p);
      case Exit => ExitKeeps(s.cpu, s.sync);
    }
  }

  // ---------- every run ----------

  /** Every state of every run from boot satisfies the invariant. */
  lemma {:induction false} EveryState(ss: seq<State>, es: seq<Event>, i: nat)
    requires IsRun(ss, es) && Boot(ss[0]) && i < |ss|
    ensures Inv(ss[i])
  {
    if i == 0 {
      BootInv(ss[0]);
    } else {
      EveryState(ss, es, i - 1);
      StepKeeps(ss[i - 1], es[i - 1]);
    }
  }

  /** s occurs in a run from boot. */
  ghost predicate Reachable(s: State) {
    exists ss: seq<State>, es: seq<Event> :: IsRun(ss, es) && Boot(ss[0]) && ss[|es|] == s
  }

  lemma ReachableInv(s: State)
    requires Reachable(s)
    ensures Inv(s)
  {
    var ss: seq<State>, es: seq<Event> :| IsRun(ss, es) && Boot(ss[0]) && ss[|es|] == s;
    EveryState(ss, es, |es|);
  }

  lemma ReachableStep(s: State, e: Event)
    requires Reachable(s) && Enabled(s, e)
    ensures Reachable(Step(s, e))
  {
    hide Step, Enabled, Boot;
    var ss: seq<State>, es: seq<Event> :| IsRun(ss, es) && Boot(ss[0]) && ss[|es|] == s;
    var ss', es' := ss + [Step(s, e)], es + [e];
    assert IsRun(ss', es') && Boot(ss'[0]) && ss'[|es'|] == Step(s, e);
  }

  lemma BootIsReachable(s: State)
    requires Boot(s)
    ensures Reachable(s)
  {
    var ss, es: seq<Event> := [s], [];
    assert IsRun(ss, es) && Boot(ss[0]) && ss[|es|] == s;
  }

  /** A run from any reachable state. */
  ghost predicate KernelRun(ss: seq<State>, es: seq<Event>) {
    IsRun(ss, es) && Reachable(ss[0])
  }

  lemma {:induction false} KernelRunInv(ss: seq<State>, es: seq<Event>, i: nat)
    requires KernelRun(ss, es) && i < |ss|
    ensures Inv(ss[i])
  {
    if i == 0 {
      ReachableInv(ss[0]);
    } else {
      KernelRunInv(ss, es, i - 1);
      StepKeeps(ss[i - 1], es[i - 1]);
    }
  }

  lemma KernelRunPrefix(ss: seq<State>, es: seq<Event>)
    requires KernelRun(ss, es) && |es| > 0
    ensures KernelRun(ss[..|es|], es[..|es| - 1])
  {
  }
}
