/**
 The handshake between process_wait and process_exit, for any number of
 processes: each step is one semaphore operation or one store, and any process
 may take the next step.
 */
module Waiting {
  import opened Lists
  import M = Machine

  type Tid = M.Tid
  type Option<T> = M.Option<T>

  /** A process_wait that returned: found tells whether tid was among the children. */
  datatype Entry = Entry(tid: Tid, result: int, found: bool)

  datatype Pc =
    | User
    | Waiting(child: Tid)                    // before sema_down (&t->child_lock)
    | Reading(child: Tid)                    // before reading exit_status
    | Unlinking(child: Tid, status: int)     // before list_remove
    | Releasing(child: Tid, status: int)     // before sema_up (&t->mem_lock)
    | Exiting                                // before sema_up (&cur->child_lock)
    | Exited                                 // before sema_down (&cur->mem_lock)
    | Dead                                   // its struct thread may be freed

  datatype State = State(
    procs: set<Tid>,
    pc: Total<Tid, Pc>,
    parent: Total<Tid, Option<Tid>>,
    children: Total<Tid, seq<Tid>>,
    status: Total<Tid, int>,
    childLock: Total<Tid, nat>,
    memLock: Total<Tid, nat>,
    log: Total<Tid, seq<Entry>>)

  datatype Event =
    | Spawn(p: Tid, c: Tid)
    | Exit(p: Tid, status: int)
    | UpChild(p: Tid)
    | DownMem(p: Tid)
    | Wait(p: Tid, tid: Tid)
    | DownChild(p: Tid)
    | Read(p: Tid)
    | Unlink(p: Tid)
    | UpMem(p: Tid)

  ghost predicate Enabled(s: State, e: Event) {
    e.p in s.procs &&
    match e
    case Spawn(p, c) => s.pc(p) == User && c !in s.procs
    case Exit(p, _) => s.pc(p) == User
    case UpChild(p) => s.pc(p) == Exiting
    case DownMem(p) => s.pc(p) == Exited && s.memLock(p) > 0
    case Wait(p, _) => s.pc(p) == User
    case DownChild(p) => s.pc(p).Waiting? && s.childLock(s.pc(p).child) > 0
    case Read(p) => s.pc(p).Reading?
    case Unlink(p) => s.pc(p).Unlinking?
    case UpMem(p) => s.pc(p).Releasing?
  }

  /** list_remove of the element of c. */
  function Removed(ts: seq<Tid>, c: Tid): (r: seq<Tid>)
    ensures forall t :: t in r <==> t in ts && t != c
  {
    if ts == [] then []
    else
      var rest := Removed(ts[..|ts| - 1], c);
      assert ts == ts[..|ts| - 1] + [ts[|ts| - 1]];
      if ts[|ts| - 1] == c then rest else rest + [ts[|ts| - 1]]
  }

  ghost function Step(s: State, e: Event): State
    requires Enabled(s, e)
  {
    match e
    case Spawn(p, c) =>
      s.(procs := s.procs + {c}, pc := Put(s.pc, c, User), parent := Put(s.parent, c, M.Some(p)),
         children := Put(Put(s.children, p, s.children(p) + [c]), c, []), log := Put(s.log, c, []),
         childLock := Put<Tid, nat>(s.childLock, c, 0), memLock := Put<Tid, nat>(s.memLock, c, 0))
    case Exit(p, v) => s.(pc := Put(s.pc, p, Exiting), status := Put(s.status, p, v))
    case UpChild(p) => s.(pc := Put(s.pc, p, Exited), childLock := Put<Tid, nat>(s.childLock, p, s.childLock(p) + 1))
    case DownMem(p) => s.(pc := Put(s.pc, p, Dead), memLock := Put<Tid, nat>(s.memLock, p, s.memLock(p) - 1))
    case Wait(p, t) =>
      if t in s.children(p) then s.(pc := Put(s.pc, p, Waiting(t)))
      else s.(log := Put(s.log, p, s.log(p) + [Entry(t, -1, false)]))
    case DownChild(p) =>
      var c := s.pc(p).child;
      s.(pc := Put(s.pc, p, Reading(c)), childLock := Put<Tid, nat>(s.childLock, c, s.childLock(c) - 1))
    case Read(p) => s.(pc := Put(s.pc, p, Unlinking(s.pc(p).child, s.status(s.pc(p).child))))
    case Unlink(p) =>
      var c := s.pc(p).child;
      s.(pc := Put(s.pc, p, Releasing(c, s.pc(p).status)),
         children := Put(s.children, p, Removed(s.children(p), c)))
    case UpMem(p) =>
      var c := s.pc(p).child;
      s.(pc := Put(s.pc, p, User), memLock := Put<Tid, nat>(s.memLock, c, s.memLock(c) + 1),
         log := Put(s.log, p, s.log(p) + [Entry(c, s.pc(p).status, true)]))
  }

  /** One process, no children. */
  ghost predicate Boot(s: State) {
    && (forall t :: t in s.procs ==> s.pc(t) == User && s.parent(t) == M.None)
    && (forall t :: s.children(t) == [] && s.log(t) == [])
    && (forall t :: s.childLock(t) == 0 && s.memLock(t) == 0)
  }

  ghost predicate IsRun(ss: seq<State>, es: seq<Event>) {
    && |ss| == |es| + 1 && Boot(ss[0])
    && forall i :: 0 <= i < |es| ==> Enabled(ss[i], es[i]) && ss[i + 1] == Step(ss[i], es[i])
  }

  // ---------- the invariant ----------

  /** How many waits in log were for c and found it. */
  function Reaps(log: seq<Entry>, c: Tid): nat {
    if log == [] then 0
    else Reaps(log[..|log| - 1], c) + if log[|log| - 1].tid == c && log[|log| - 1].found then 1 else 0
  }

  /** p is inside process_wait for c. */
  predicate For(pc: Pc, c: Tid) {
    (pc.Waiting? || pc.Reading? || pc.Unlinking? || pc.Releasing?) && pc.child == c
  }

  ghost predicate HasExited(s: State, c: Tid) {
    s.pc(c) == Exited || s.pc(c) == Dead
  }

  /** The four phases of a child c of q: not yet waited for, its status being
      read, unlinked, and reaped. */
  ghost predicate ChildOk(s: State, q: Tid, c: Tid) {
    var pc, linked, reaps := s.pc(q), c in s.children(q), Reaps(s.log(q), c);
    if pc == Reading(c) || (pc.Unlinking? && pc.child == c) then
      && linked && reaps == 0 && s.pc(c) == Exited && s.childLock(c) == s.memLock(c) == 0
      && (pc.Unlinking? ==> pc.status == s.status(c))
    else if pc.Releasing? && pc.child == c then
      && !linked && reaps == 0 && s.pc(c) == Exited && s.childLock(c) == s.memLock(c) == 0
      && pc.status == s.status(c)
    else if linked then
      && reaps == 0 && s.pc(c) != Dead && s.memLock(c) == 0
      && s.childLock(c) == if s.pc(c) == Exited then 1 else 0
    else
      && reaps == 1 && HasExited(s, c) && s.childLock(c) == 0 && pc != Waiting(c)
      && s.memLock(c) == if s.pc(c) == Dead then 0 else 1
  }

  /** What a wait returned. */
  ghost predicate EntryOk(s: State, q: Tid, e: Entry) {
    if e.found then e.tid in s.procs && s.parent(e.tid) == M.Some(q) && HasExited(s, e.tid)
        && e.result == s.status(e.tid)
    else e.result == -1
  }

  /** Children are linked from, and waited for by, nobody but their parent. */
  ghost predicate Tree(s: State) {
    && (forall c :: c in s.procs && s.parent(c).Some? ==> s.parent(c).value in s.procs && s.parent(c).value != c)
    && (forall q, c :: q in s.procs && c in s.children(q) ==> c in s.procs && s.parent(c) == M.Some(q))
    && (forall q, c :: q in s.procs && For(s.pc(q), c) ==> c in s.procs && s.parent(c) == M.Some(q))
  }

  ghost predicate Phase(s: State, c: Tid) {
    if s.parent(c).Some? then ChildOk(s, s.parent(c).value, c) else s.memLock(c) == 0 && s.pc(c) != Dead
  }

  ghost predicate Inv(s: State) {
    && Tree(s)
    && (forall c :: c in s.procs ==> Phase(s, c))
    && (forall q, e :: q in s.procs && e in s.log(q) ==> EntryOk(s, q, e))
  }

  lemma LogNext(log: seq<Entry>, e: Entry, c: Tid)
    ensures Reaps(log + [e], c) == Reaps(log, c) + if e.tid == c && e.found then 1 else 0
    ensures forall x :: x in log + [e] <==> x in log || x == e
  {
    assert (log + [e])[..|log|] == log;
  }

  lemma {:induction false} NoReap(log: seq<Entry>, c: Tid)
    requires forall e :: e in log && e.found ==> e.tid != c
    ensures Reaps(log, c) == 0
  {
    if log != [] {
      assert log[|log| - 1] in log;
      NoReap(log[..|log| - 1], c);
    }
  }

  lemma TreeKeeps(s: State, e: Event)
    requires Tree(s) && Enabled(s, e)
    ensures Tree(Step(s, e))
  {
    hide Step, For;
    var s' := Step(s, e);
    forall c | c in s'.procs && s'.parent(c).Some? ensures s'.parent(c).value in s'.procs && s'.parent(c).value != c {
      ParentKeeps(s, e, c);
    }
    forall q, c | q in s'.procs && c in s'.children(q) ensures c in s'.procs && s'.parent(c) == M.Some(q) {
      LinkKeeps(s, e, q, c);
    }
    forall q, c | q in s'.procs && For(s'.pc(q), c) ensures c in s'.procs && s'.parent(c) == M.Some(q) {
      WaitFor(s, e, q, c);
    }
  }

  lemma ParentKeeps(s: State, e: Event, c: Tid)
    requires Tree(s) && Enabled(s, e) && c in Step(s, e).procs && Step(s, e).parent(c).Some?
    ensures Step(s, e).parent(c).value in Step(s, e).procs && Step(s, e).parent(c).value != c
  {
  }

  lemma LinkKeeps(s: State, e: Event, q: Tid, c: Tid)
    requires Tree(s) && Enabled(s, e) && q in Step(s, e).procs && c in Step(s, e).children(q)
    ensures c in Step(s, e).procs && Step(s, e).parent(c) == M.Some(q)
  {
  }

  lemma WaitFor(s: State, e: Event, q: Tid, c: Tid)
    requires Tree(s) && Enabled(s, e) && q in Step(s, e).procs && For(Step(s, e).pc(q), c)
    ensures c in Step(s, e).procs && Step(s, e).parent(c) == M.Some(q)
  {
    if e.Unlink? || e.DownChild? || e.Read? {
      assert For(s.pc(e.p), s.pc(e.p).child);
    }
  }

  /** A child none of whose own fields, and none of whose parent's, say anything new about it. */
  lemma PhaseFrame(s: State, s': State, c: Tid)
    requires Phase(s, c) && s'.parent(c) == s.parent(c) && s'.pc(c) == s.pc(c) && s'.memLock(c) == s.memLock(c)
    requires s.parent(c).Some? ==>
               var q := s.parent(c).value;
               && s'.childLock(c) == s.childLock(c) && s'.status(c) == s.status(c)
               && (s'.pc(q) == s.pc(q) || (!For(s.pc(q), c) && !For(s'.pc(q), c)))
               && (c in s'.children(q) <==> c in s.children(q)) && Reaps(s'.log(q), c) == Reaps(s.log(q), c)
    ensures Phase(s', c)
  {
  }

  /** The process that takes a step, as a child. */
  lemma OwnPhase(s: State, e: Event)
    requires Inv(s) && Enabled(s, e)
    ensures Phase(Step(s, e), e.p)
  {
    var p, s' := e.p, Step(s, e);
    assert Phase(s, p);
    if s.parent(p).Some? {
      var q := s.parent(p).value;
      assert q in s.procs && q != p;
      assert e.UpMem? || e.DownChild? ==> s.pc(p).child != p by {
        assert e.UpMem? || e.DownChild? ==> For(s.pc(p), s.pc(p).child);
      }
    } else {
      assert e.UpMem? ==> For(s.pc(p), s.pc(p).child);
    }
  }

  /** The child a parent's step is about. */
  lemma TargetPhase(s: State, e: Event, c: Tid)
    requires Inv(s) && Enabled(s, e) && c in s.procs && c != e.p && s.parent(c) == M.Some(e.p)
    requires For(s.pc(e.p), c) || (e.Wait? && e.tid == c)
    ensures Phase(Step(s, e), c)
  {
    assert Phase(s, c);
    match e {
      case UpMem(p) => LogNext(s.log(p), Entry(c, s.pc(p).status, true), c);
      case Wait(p, t) => LogNext(s.log(p), Entry(t, -1, false), c);
      case _ =>
    }
  }

  /** A process the step is not about. */
  lemma OtherPhase(s: State, e: Event, d: Tid)
    requires Inv(s) && Enabled(s, e) && d in s.procs && d != e.p
    requires s.parent(d) == M.Some(e.p) ==> !For(s.pc(e.p), d) && !(e.Wait? && e.tid == d)
    ensures Phase(Step(s, e), d)
  {
    hide Inv, Phase, Step;
    PhaseAt(s, d);
    OwnFieldsStay(s, e, d);
    if s.parent(d).Some? {
      if s.parent(d).value == e.p {
        OwnChildAside(s, e, d);
      } else {
        OthersAside(s, e, s.parent(d).value);
      }
    }
    PhaseFrame(s, Step(s, e), d);
  }

  lemma PhaseAt(s: State, c: Tid)
    requires Inv(s) && c in s.procs
    ensures Phase(s, c)
    ensures s.parent(c).Some? ==> s.parent(c).value in s.procs
  {
  }

  /** The child a process is inside process_wait for is its own. */
  lemma WaitedForIsChild(s: State, p: Tid, c: Tid)
    requires Inv(s) && p in s.procs && For(s.pc(p), c)
    ensures s.parent(c) == M.Some(p)
  {
  }

  /** No step stores into a process it is not about. */
  lemma OwnFieldsStay(s: State, e: Event, d: Tid)
    requires Inv(s) && Enabled(s, e) && d in s.procs && d != e.p
    requires s.parent(d) == M.Some(e.p) ==> !For(s.pc(e.p), d)
    ensures var s' := Step(s, e);
            && s'.parent(d) == s.parent(d) && s'.pc(d) == s.pc(d) && s'.status(d) == s.status(d)
            && s'.childLock(d) == s.childLock(d) && s'.memLock(d) == s.memLock(d)
  {
    hide Inv, Removed;
    if e.UpMem? || e.DownChild? {
      WaitedForIsChild(s, e.p, s.pc(e.p).child);
    }
  }

  /** What a parent's step about somebody else leaves of its record of d. */
  lemma OwnChildAside(s: State, e: Event, d: Tid)
    requires Enabled(s, e) && d in s.procs && !For(s.pc(e.p), d) && !(e.Wait? && e.tid == d)
    ensures var s' := Step(s, e);
            && !For(s'.pc(e.p), d)
            && (d in s'.children(e.p) <==> d in s.children(e.p)) && Reaps(s'.log(e.p), d) == Reaps(s.log(e.p), d)
  {
    match e {
      case UpMem(p) => LogNext(s.log(p), Entry(s.pc(p).child, s.pc(p).status, true), d);
      case Wait(p, t) => LogNext(s.log(p), Entry(t, -1, false), d);
      case _ =>
    }
  }

  /** Nor into a parent that does not take it. */
  lemma OthersAside(s: State, e: Event, q: Tid)
    requires Enabled(s, e) && q in s.procs && q != e.p
    ensures var s' := Step(s, e);
            s'.pc(q) == s.pc(q) && s'.children(q) == s.children(q) && s'.log(q) == s.log(q)
  {
    hide Removed;
  }

  lemma EntryKeeps(s: State, e: Event, q: Tid, x: Entry)
    requires Inv(s) && Enabled(s, e) && q in s.procs && x in s.log(q)
    ensures EntryOk(Step(s, e), q, x)
  {
    assert EntryOk(s, q, x);
  }

  lemma NewEntry(s: State, e: Event, x: Entry)
    requires Inv(s) && Enabled(s, e) && x in Step(s, e).log(e.p) && x !in s.log(e.p)
    ensures EntryOk(Step(s, e), e.p, x)
  {
    if e.UpMem? {
      var c := s.pc(e.p).child;
      assert For(s.pc(e.p), c);
      assert Phase(s, c);
    }
  }

  lemma SpawnedPhase(s: State, p: Tid, c: Tid)
    requires Inv(s) && Enabled(s, Spawn(p, c))
    ensures Phase(Step(s, Spawn(p, c)), c)
  {
    forall x | x in s.log(p) && x.found ensures x.tid != c {
      assert EntryOk(s, p, x);
    }
    NoReap(s.log(p), c);
  }

  lemma StepKeeps(s: State, e: Event)
    requires Inv(s) && Enabled(s, e)
    ensures Inv(Step(s, e))
  {
    hide Step, Phase, Tree, EntryOk, For;
    var s' := Step(s, e);
    TreeKeeps(s, e);
    forall c | c in s'.procs ensures Phase(s', c) {
      NewProc(s, e, c);
      if c !in s.procs {
        SpawnedPhase(s, e.p, c);
      } else if c == e.p {
        OwnPhase(s, e);
      } else if s.parent(c) == M.Some(e.p) && (For(s.pc(e.p), c) || (e.Wait? && e.tid == c)) {
        TargetPhase(s, e, c);
      } else {
        OtherPhase(s, e, c);
      }
    }
    forall q, x | q in s'.procs && x in s'.log(q) ensures EntryOk(s', q, x) {
      NewProc(s, e, q);
      if q != e.p {
        OtherLogs(s, e, q);
      }
      if q in s.procs && x in s.log(q) {
        EntryKeeps(s, e, q, x);
      } else {
        NewEntry(s, e, x);
      }
    }
  }

  lemma NewProc(s: State, e: Event, c: Tid)
    requires Enabled(s, e) && c in Step(s, e).procs
    ensures c in s.procs || e == Spawn(e.p, c)
  {
  }

  lemma OtherLogs(s: State, e: Event, q: Tid)
    requires Enabled(s, e) && q != e.p
    ensures if q in s.procs then Step(s, e).log(q) == s.log(q) else q in Step(s, e).procs ==> Step(s, e).log(q) == []
  {
  }

  /** Inside process_wait the child exists, is not the caller, and its status is fixed. */
  lemma InsideWait(s: State, p: Tid)
    requires Inv(s) && p in s.procs
    requires s.pc(p).Waiting? || s.pc(p).Reading? || s.pc(p).Unlinking? || s.pc(p).Releasing?
    ensures var c := s.pc(p).child;
            && c in s.procs && c != p && s.parent(c) == M.Some(p)
            && (s.pc(p).Releasing? ==> s.pc(p).status == s.status(c))
  {
    assert For(s.pc(p), s.pc(p).child);
    assert Phase(s, s.pc(p).child);
  }

  // ---------- every run ----------

  lemma {:induction false} EveryState(ss: seq<State>, es: seq<Event>, i: nat)
    requires IsRun(ss, es) && i < |ss|
    ensures Inv(ss[i])
  {
    if i > 0 {
      EveryState(ss, es, i - 1);
      StepKeeps(ss[i - 1], es[i - 1]);
    }
  }

  ghost predicate Reachable(s: State) {
    exists ss: seq<State>, es: seq<Event> :: IsRun(ss, es) && ss[|es|] == s
  }

  lemma ReachableInv(s: State)
    requires Reachable(s)
    ensures Inv(s)
  {
    var ss: seq<State>, es: seq<Event> :| IsRun(ss, es) && ss[|es|] == s;
    EveryState(ss, es, |es|);
  }

  lemma {:induction false} TwoReaps(log: seq<Entry>, c: Tid, i: nat, j: nat)
    requires i < j < |log| && log[i].found && log[j].found && log[i].tid == log[j].tid == c
    ensures Reaps(log, c) >= 2
  {
    var n := |log| - 1;
    if j < n {
      TwoReaps(log[..n], c, i, j);
    } else {
      OneReap(log[..n], c, i);
    }
  }

  lemma {:induction false} OneReap(log: seq<Entry>, c: Tid, i: nat)
    requires i < |log| && log[i].found && log[i].tid == c
    ensures Reaps(log, c) >= 1
  {
    var n := |log| - 1;
    if i < n {
      OneReap(log[..n], c, i);
    }
  }

  lemma {:induction false} SomeReap(log: seq<Entry>, c: Tid) returns (i: nat)
    requires Reaps(log, c) >= 1
    ensures i < |log| && log[i].found && log[i].tid == c
  {
    var n := |log| - 1;
    if log[n].tid == c && log[n].found {
      i := n;
    } else {
      i := SomeReap(log[..n], c);
    }
  }

  /** What every wait that has returned yields: the status of a child of the
      caller that has exited, at most once for each child, and otherwise -1. */
  lemma WaitsAreExact(s: State, q: Tid, i: nat)
    requires Reachable(s) && q in s.procs && i < |s.log(q)|
    ensures var e := s.log(q)[i];
            if e.found then
              && e.tid in s.procs && s.parent(e.tid) == M.Some(q) && HasExited(s, e.tid) && e.result == s.status(e.tid)
              && forall j :: i < j < |s.log(q)| && s.log(q)[j].tid == e.tid ==>
                   !s.log(q)[j].found && s.log(q)[j].result == -1
            else e.result == -1
  {
    ReachableInv(s);
    var log := s.log(q);
    var e := log[i];
    assert e in log;
    if e.found {
      var c := e.tid;
      assert Phase(s, c);
      forall j | i < j < |log| && log[j].tid == c ensures !log[j].found && log[j].result == -1 {
        assert log[j] in log;
        if log[j].found {
          TwoReaps(log, c, i, j);
        }
      }
    }
  }

  /** A child finishes exiting only after its parent has its status and has unlinked it. */
  lemma ParentReapsFirst(s: State, c: Tid) returns (i: nat)
    requires Reachable(s) && c in s.procs && s.pc(c) == Dead
    ensures s.parent(c).Some?
    ensures var q := s.parent(c).value;
            && c !in s.children(q)
            && i < |s.log(q)| && s.log(q)[i] == Entry(c, s.status(c), true)
  {
    ReachableInv(s);
    assert Phase(s, c);
    var q := s.parent(c).value;
    i := SomeReap(s.log(q), c);
    assert s.log(q)[i] in s.log(q);
  }

  /** While a process is inside process_wait for a child, the child's struct is alive. */
  lemma ChildAliveDuringWait(s: State, q: Tid, c: Tid)
    requires Reachable(s) && q in s.procs && For(s.pc(q), c)
    ensures c in s.procs && s.pc(c) != Dead
  {
    ReachableInv(s);
    assert Phase(s, c);
  }

  /** A wait for a child goes on exactly once the child has exited. */
  lemma WaitProceedsIff(s: State, q: Tid)
    requires Reachable(s) && q in s.procs && s.pc(q).Waiting?
    ensures Enabled(s, DownChild(q)) <==> s.pc(s.pc(q).child) == Exited
  {
    ReachableInv(s);
    assert For(s.pc(q), s.pc(q).child);
    assert Phase(s, s.pc(q).child);
  }

  /** An exited child goes on exactly once its parent's wait for it has returned. */
  lemma ExitProceedsIff(s: State, c: Tid)
    requires Reachable(s) && c in s.procs && s.pc(c) == Exited
    ensures Enabled(s, DownMem(c)) <==>
            s.parent(c).Some? && exists i :: 0 <= i < |s.log(s.parent(c).value)| && s.log(s.parent(c).value)[i] == Entry(c, s.status(c), true)
  {
    ReachableInv(s);
    assert Phase(s, c);
    if s.parent(c).Some? {
      var log := s.log(s.parent(c).value);
      if Enabled(s, DownMem(c)) {
        var i := SomeReap(log, c);
        assert log[i] in log;
        assert EntryOk(s, s.parent(c).value, log[i]);
        assert log[i] == Entry(c, s.status(c), true);
      }
      if i :| 0 <= i < |log| && log[i] == Entry(c, s.status(c), true) {
        OneReap(log, c, i);
      }
    }
  }

  lemma StatusStays(s: State, e: Event, c: Tid)
    requires Enabled(s, e) && c in s.procs && (s.pc(c) == Exiting || HasExited(s, c))
    ensures var s' := Step(s, e); c in s'.procs && s'.status(c) == s.status(c) && (s'.pc(c) == Exiting || HasExited(s', c))
  {
  }

  /** An exit status, once recorded, stays. */
  lemma {:induction false} ExitStatusStays(ss: seq<State>, es: seq<Event>, i: nat, k: nat, c: Tid, v: int)
    requires IsRun(ss, es) && i < k <= |es| && es[i] == Exit(c, v)
    ensures c in ss[k].procs && ss[k].status(c) == v
    ensures ss[k].pc(c) == Exiting || HasExited(ss[k], c)
  {
    hide Boot;
    if k > i + 1 {
      ExitStatusStays(ss, es, i, k - 1, c, v);
      StatusStays(ss[k - 1], es[k - 1], c);
    }
  }

  /** Whatever a child passes to exit is what the wait that finds it returns. */
  lemma WaitReturnsExitStatus(ss: seq<State>, es: seq<Event>, i: nat, c: Tid, v: int, q: Tid, j: nat)
    requires IsRun(ss, es) && i < |es| && es[i] == Exit(c, v)
    requires q in ss[|es|].procs && j < |ss[|es|].log(q)| && ss[|es|].log(q)[j].tid == c && ss[|es|].log(q)[j].found
    ensures ss[|es|].log(q)[j].result == v && ss[|es|].parent(c) == M.Some(q)
  {
    var s := ss[|es|];
    ExitStatusStays(ss, es, i, |es|, c, v);
    EveryState(ss, es, |es|);
    assert s.log(q)[j] in s.log(q);
  }

  // ---------- a wait, from its call to its result ----------

  /** c is a child of q for which no wait of q has returned its status. */
  ghost predicate Unreaped(s: State, q: Tid, c: Tid) {
    c in s.procs && s.parent(c) == M.Some(q) && forall e :: e in s.log(q) && e.found ==> e.tid != c
  }

  lemma UnreapedIsLinked(s: State, q: Tid, c: Tid)
    requires Inv(s) && q in s.procs && s.pc(q) == User
    ensures c in s.children(q) <==> Unreaped(s, q, c)
  {
    if c in s.procs && s.parent(c) == M.Some(q) {
      assert Phase(s, c);
      if Unreaped(s, q, c) {
        NoReap(s.log(q), c);
      } else {
        var e :| e in s.log(q) && e.found && e.tid == c;
        var i :| 0 <= i < |s.log(q)| && s.log(q)[i] == e;
        OneReap(s.log(q), c, i);
      }
    }
  }

  /** process_wait waits for any child that has not been waited for, wherever it is in the list,
      and for nothing else: every other call returns -1 at once. */
  lemma WaitWaitsIff(s: State, p: Tid, t: Tid)
    requires Reachable(s) && Enabled(s, Wait(p, t))
    ensures var s' := Step(s, Wait(p, t));
            if Unreaped(s, p, t) then s'.pc(p) == Waiting(t) && s'.log(p) == s.log(p)
            else s'.pc(p) == User && s'.log(p) == s.log(p) + [Entry(t, -1, false)]
  {
    hide Inv, Reachable, Unreaped;
    ReachableInv(s);
    UnreapedIsLinked(s, p, t);
  }

  /** Between the call of a wait and its result p is inside process_wait for t. */
  lemma WaitGoesOn(s: State, e: Event, p: Tid, t: Tid)
    requires Inv(s) && Enabled(s, e) && p in s.procs && For(s.pc(p), t)
    ensures var s' := Step(s, e);
            && p in s'.procs
            && if e == UpMem(p) then s'.log(p) == s.log(p) + [Entry(t, s.status(t), true)]
               else For(s'.pc(p), t) && s'.log(p) == s.log(p)
  {
    hide Inv, Removed;
    InsideWait(s, p);
  }

  lemma LogGrows(s: State, e: Event, p: Tid)
    requires Enabled(s, e) && p in s.procs
    ensures p in Step(s, e).procs && s.log(p) <= Step(s, e).log(p)
  {
    hide Removed;
  }

  /** A process that has exited has called exit, with what is now its status. */
  lemma {:induction false} ExitedBy(ss: seq<State>, es: seq<Event>, c: Tid)
    requires IsRun(ss, es) && c in ss[|es|].procs && (ss[|es|].pc(c) == Exiting || HasExited(ss[|es|], c))
    ensures exists k :: 0 <= k < |es| && es[k] == Exit(c, ss[|es|].status(c))
  {
    hide Inv, Removed;
    if es != [] {
      var n := |es| - 1;
      var s, e := ss[n], es[n];
      if e != Exit(c, ss[|es|].status(c)) {
        assert Enabled(s, e) && ss[n + 1] == Step(s, e);
        assert c in s.procs && (s.pc(c) == Exiting || HasExited(s, c)) && s.status(c) == ss[|es|].status(c);
        assert ss[..|es|][|es[..n]|] == s;
        ExitedBy(ss[..|es|], es[..n], c);
        var k :| 0 <= k < |es[..n]| && es[..n][k] == Exit(c, s.status(c));
        assert es[k] == Exit(c, ss[|es|].status(c));
      }
    }
  }

  lemma RunIsReachable(ss: seq<State>, es: seq<Event>)
    requires IsRun(ss, es)
    ensures Reachable(ss[|es|])
  {
  }

  lemma Caller(s: State, e: Event)
    requires Enabled(s, e)
    ensures e.p in s.procs && e.p in Step(s, e).procs
  {
  }

  lemma Inside(s: State, p: Tid, t: Tid)
    requires s.pc(p) == Waiting(t)
    ensures For(s.pc(p), t)
  {
  }

  /** A process about to release its child has a child that has called exit. */
  lemma HasCalledExit(ss: seq<State>, es: seq<Event>, p: Tid, t: Tid)
    requires IsRun(ss, es) && Enabled(ss[|es|], UpMem(p)) && For(ss[|es|].pc(p), t)
    ensures exists k :: 0 <= k < |es| && es[k] == Exit(t, ss[|es|].status(t))
  {
    var s := ss[|es|];
    EveryState(ss, es, |es|);
    assert Phase(s, t);
    ExitedBy(ss, es, t);
  }

  /** Over a run: a wait for a child that has not been waited for is not over before p's log
      has grown, and then the log's next entry is for that child, with what it passed to exit. */
  lemma {:induction false} WaitResult(ss: seq<State>, es: seq<Event>, i: nat, p: Tid, t: Tid)
    requires IsRun(ss, es) && i < |es| && es[i] == Wait(p, t) && Unreaped(ss[i], p, t)
    ensures var n, log := |ss[i].log(p)|, ss[|es|].log(p);
            && p in ss[|es|].procs
            && if |log| == n then For(ss[|es|].pc(p), t)
               else |log| > n && log[n].tid == t && log[n].found
                    && exists k :: 0 <= k < |es| && es[k] == Exit(t, log[n].result)
  {
    hide Inv, Enabled, Step, Boot, For, Unreaped;
    var m := |es| - 1;
    assert Enabled(ss[m], es[m]) && ss[m + 1] == Step(ss[m], es[m]);
    var ss', es' := ss[..|es|], es[..m];
    assert IsRun(ss', es') && ss'[|es'|] == ss[m];
    EveryState(ss, es, m);
    if i == m {
      RunIsReachable(ss', es');
      WaitWaitsIff(ss[m], p, t);
      Caller(ss[m], es[m]);
      Inside(ss[m + 1], p, t);
    } else {
      assert ss'[i] == ss[i] && es'[i] == es[i];
      WaitResult(ss', es', i, p, t);
      LogGrows(ss[m], es[m], p);
      if |ss[m].log(p)| == |ss[i].log(p)| {
        WaitGoesOn(ss[m], es[m], p, t);
        if es[m] == UpMem(p) {
          HasCalledExit(ss', es', p, t);
        }
      } else {
        var k :| 0 <= k < |es'| && es'[k] == Exit(t, ss[m].log(p)[|ss[i].log(p)|].result);
        assert es[k] == es'[k];
      }
    }
  }

  // ---------- the semaphores ----------

  /** The process whose semaphore the step e from s works on. */
  ghost function Target(s: State, e: Event): Tid
    requires (e.DownChild? ==> s.pc(e.p).Waiting?) && (e.UpMem? ==> s.pc(e.p).Releasing?)
  {
    if e.DownChild? || e.UpMem? then s.pc(e.p).child else e.p
  }

  /** The value of that semaphore in now: child_lock or mem_lock. */
  ghost function Value(s: State, now: State, e: Event): nat
    requires (e.DownChild? ==> s.pc(e.p).Waiting?) && (e.UpMem? ==> s.pc(e.p).Releasing?)
  {
    if e.UpChild? || e.DownChild? then now.childLock(Target(s, e)) else now.memLock(Target(s, e))
  }

  /** The two waits of the handshake are the scheduler's sema_down: a process that is at
      one may take the step exactly where the sema_down does not block, and the step
      leaves the value that the sema_down leaves. */
  lemma WaitsAreDowns(s: State, e: Event, y: M.Sync, r: M.Tid, sm: M.Sema)
    requires e.p in s.procs && ((e.DownChild? && s.pc(e.p).Waiting?) || (e.DownMem? && s.pc(e.p) == Exited))
    requires y.value(sm) == Value(s, s, e)
    ensures Enabled(s, e) <==> M.Down(y, r, sm).1 == M.Stay
    ensures Enabled(s, e) ==> M.Down(y, r, sm).0.value(sm) == Value(s, Step(s, e), e)
  {
  }

  /** And the two announcements are its sema_up. */
  lemma AnnouncementsAreUps(s: State, e: Event, y: M.Sync, r: M.Tid, sm: M.Sema)
    requires Enabled(s, e) && (e.UpChild? || e.UpMem?) && y.value(sm) == Value(s, s, e)
    ensures M.Up(y, r, sm).0.value(sm) == Value(s, Step(s, e), e)
  {
    hide Sort;
  }
}
