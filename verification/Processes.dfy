/** process_wait, process_exit and exit, updating the processes' structures in place. */
module Processes {
  import opened Lists
  import opened Waiting

  /** The fields of struct thread that the handshake uses. */
  class Process {
    const tid: Tid
    var pc: Pc
    var children: seq<Tid>
    var exitStatus: int
    var childLock: nat
    var memLock: nat
    ghost var log: seq<Entry>  // the waits that returned

    /** The fields are as in s. */
    ghost predicate Is(s: State)
      reads this
    {
      && pc == s.pc(tid) && children == s.children(tid) && exitStatus == s.status(tid) && log == s.log(tid)
      && childLock == s.childLock(tid) && memLock == s.memLock(tid)
    }

    constructor (tid: Tid)
      ensures this.tid == tid && pc == User && children == [] && childLock == memLock == 0 && log == []
      ensures exitStatus == 0
    {
      this.tid, this.pc, this.children, this.exitStatus := tid, User, [], 0;
      this.childLock, this.memLock, this.log := 0, 0, [];
    }
  }

  /** The processes, over a fixed set of pages they can be made of. */
  class Table {
    const process: map<Tid, Process>
    const processes: set<Process>

    /** One process, and a page for each other name. */
    constructor (root: Tid, process: map<Tid, Process>, processes: set<Process>)
      requires root in process && Fresh(process, processes)
      ensures this.process == process && this.processes == processes
      ensures Distinct() && Shows(RootState(root))
    {
      this.process, this.processes := process, processes;
    }

    /** Each name denotes the one process that carries it. */
    ghost predicate Distinct() {
      && (forall t :: t in process ==> process[t] in processes && process[t].tid == t)
      && (forall o :: o in processes ==> o.tid in process && process[o.tid] == o)
    }

    ghost predicate Shows(s: State)
      reads processes
    {
      s.procs <= process.Keys && forall o :: o in processes ==> o.Is(s)
    }

    /** thread_create for a child, once its arguments have passed: it fails if there is no page for c. */
    method SpawnChild(p: Tid, c: Tid, ghost s: State) returns (created: bool)
      requires Distinct() && Shows(s) && Enabled(s, Spawn(p, c))
      modifies processes
      ensures created <==> c in process
      ensures Shows(if created then Step(s, Spawn(p, c)) else s)
    {
      created := c in process;
      if created {
        InitChild(c, s);
        AddChild(p, c, s);
      }
    }

    /** The fields of a new child; its status is set when it exits. */
    method InitChild(c: Tid, ghost s: State)
      requires Distinct() && Shows(s) && c in process
      modifies processes
      ensures Shows(NewChild(s, c))
    {
      var child := process[c];
      child.pc, child.children, child.log := User, [], [];
      child.childLock, child.memLock := 0, 0;
    }

    method AddChild(p: Tid, c: Tid, ghost s: State)
      requires Distinct() && Shows(NewChild(s, c)) && Enabled(s, Spawn(p, c)) && c in process
      modifies processes
      ensures Shows(Step(s, Spawn(p, c)))
    {
      process[p].children := process[p].children + [c];
    }

    /** exit: the status is recorded before process_exit. */
    method RecordExit(p: Tid, status: int, ghost s: State)
      requires Distinct() && Shows(s) && Enabled(s, Exit(p, status))
      modifies processes
      ensures Shows(Step(s, Exit(p, status)))
    {
      process[p].exitStatus := status;
      process[p].pc := Exiting;
    }

    /** process_exit: sema_up (&cur->child_lock). */
    method AnnounceExit(p: Tid, ghost s: State)
      requires Distinct() && Shows(s) && Enabled(s, UpChild(p))
      modifies processes
      ensures Shows(Step(s, UpChild(p)))
    {
      process[p].childLock := process[p].childLock + 1;
      process[p].pc := Exited;
    }

    /** process_exit: sema_down (&cur->mem_lock). */
    method AwaitReaping(p: Tid, ghost s: State)
      requires Distinct() && Shows(s) && Enabled(s, DownMem(p))
      modifies processes
      ensures Shows(Step(s, DownMem(p)))
    {
      process[p].memLock := process[p].memLock - 1;
      process[p].pc := Dead;
    }

    /** process_wait: the search of the caller's children. */
    method FindChild(p: Tid, tid: Tid, ghost s: State) returns (found: bool, result: int)
      requires Distinct() && Shows(s) && Enabled(s, Wait(p, tid))
      modifies processes
      ensures Shows(Step(s, Wait(p, tid))) && (found <==> tid in s.children(p))
      ensures process[p].pc == if found then Waiting(tid) else User
      ensures !found ==> result == -1 && Step(s, Wait(p, tid)).log(p) == s.log(p) + [Entry(tid, result, false)]
    {
      var i, cur := 0, process[p];
      while i < |cur.children| && cur.children[i] != tid
        invariant i <= |cur.children| && cur.children == s.children(p) && tid !in cur.children[..i]
        invariant Shows(s)
      {
        i := i + 1;
      }
      found, result := i < |cur.children|, -1;
      if found {
        cur.pc := Waiting(tid);
      } else {
        cur.log := cur.log + [Entry(tid, result, false)];
      }
    }

    /** process_wait: sema_down (&t->child_lock). */
    method AwaitExit(p: Tid, ghost s: State)
      requires Distinct() && Shows(s) && Inv(s) && Enabled(s, DownChild(p))
      modifies processes
      ensures Shows(Step(s, DownChild(p)))
    {
      hide Inv;
      InsideWait(s, p);
      var cur := process[p];
      var child := process[cur.pc.child];
      child.childLock := child.childLock - 1;
      cur.pc := Reading(cur.pc.child);
    }

    /** process_wait: the status. */
    method ReadStatus(p: Tid, ghost s: State)
      requires Distinct() && Shows(s) && Inv(s) && Enabled(s, Read(p))
      modifies processes
      ensures Shows(Step(s, Read(p)))
    {
      hide Inv;
      InsideWait(s, p);
      var c := process[p].pc.child;
      process[p].pc := Unlinking(c, process[c].exitStatus);
    }

    /** process_wait: list_remove (&t->child_elem). */
    method UnlinkChild(p: Tid, ghost s: State)
      requires Distinct() && Shows(s) && Enabled(s, Unlink(p))
      modifies processes
      ensures Shows(Step(s, Unlink(p)))
    {
      hide Removed;
      var cur := process[p];
      cur.children := Removed(cur.children, cur.pc.child);
      cur.pc := Releasing(cur.pc.child, cur.pc.status);
    }

    /** process_wait: sema_up (&t->mem_lock), and the result. */
    method ReleaseChild(p: Tid, ghost s: State) returns (status: int)
      requires Distinct() && Shows(s) && Inv(s) && Enabled(s, UpMem(p))
      modifies processes
      ensures Shows(Step(s, UpMem(p)))
      ensures s.parent(s.pc(p).child) == M.Some(p) && status == s.status(s.pc(p).child)
    {
      hide Inv;
      InsideWait(s, p);
      var cur := process[p];
      var child := process[cur.pc.child];
      status := cur.pc.status;
      child.memLock := child.memLock + 1;
      cur.log := cur.log + [Entry(cur.pc.child, status, true)];
      cur.pc := User;
    }
  }

  /** The structure of c initialized. */
  ghost function NewChild(s: State, c: Tid): State {
    s.(pc := Put(s.pc, c, User), children := Put(s.children, c, []), log := Put(s.log, c, []),
       childLock := Put<Tid, nat>(s.childLock, c, 0), memLock := Put<Tid, nat>(s.memLock, c, 0))
  }

  // ---------- start-up ----------

  /** One process, root. */
  ghost function RootState(root: Tid): State {
    State({root}, (t: Tid) => User, (t: Tid) => M.None, (t: Tid) => [], (t: Tid) => 0,
          (t: Tid) => 0, (t: Tid) => 0, (t: Tid) => [])
  }

  /** A table of processes none of which has done anything. */
  ghost predicate Fresh(process: map<Tid, Process>, processes: set<Process>)
    reads processes
  {
    && (forall t :: t in process ==> process[t] in processes && process[t].tid == t)
    && (forall o :: o in processes ==> o.tid in process && process[o.tid] == o)
    && (forall o :: o in processes ==> o.pc == User && o.children == [] && o.log == [] && o.exitStatus == 0)
    && (forall o :: o in processes ==> o.childLock == o.memLock == 0)
  }

  method Start(root: Tid, names: set<Tid>) returns (table: Table)
    requires root in names
    ensures fresh(table) && fresh(table.processes) && table.process.Keys == names
    ensures Boot(RootState(root)) && table.Distinct() && table.Shows(RootState(root))
  {
    var process: map<Tid, Process>, processes: set<Process> := map[], {};
    var todo := names;
    while todo != {}
      invariant todo <= names && process.Keys == names - todo
      invariant fresh(processes) && Fresh(process, processes)
      decreases todo
    {
      var t := Pick(todo);
      var o := new Process(t);
      process, processes := process[t := o], processes + {o};
      todo := todo - {t};
    }
    table := new Table(root, process, processes);
  }
}
