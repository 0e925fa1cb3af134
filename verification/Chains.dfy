/**
 Chains of waiting threads: the walk of donate_priority ends in every reachable
 state, and a new wait makes it endless exactly when it would close a cycle.
 */
module Chains {
  import opened Lists
  import opened Machine
  import opened Parking
  import opened Ownership
  import opened Donation

  type Waits = Total<Tid, Option<LockId>>
  type Holders = Total<LockId, Option<Tid>>

  /** Following waiting_lock and holder from t comes to an end. */
  ghost predicate Ends(waiting: Waits, holder: Holders, t: Tid) {
    exists path :: IsChain(waiting, holder, t, path)
  }

  /** No thread waits, directly or through others, for itself. */
  ghost predicate Acyclic(y: Sync) {
    forall t :: Ends(y.waiting, y.holder, t)
  }

  // ---------- chains ----------

  /** From each thread there is one chain at most. */
  lemma {:induction false} ChainUnique(waiting: Waits, holder: Holders, t: Tid, p: seq<Tid>, q: seq<Tid>)
    requires IsChain(waiting, holder, t, p) && IsChain(waiting, holder, t, q)
    ensures p == q
    decreases |p|
  {
    assert p == [p[0]] + p[1..];
    assert q == [q[0]] + q[1..];
    if waiting(t).Some? {
      ChainUnique(waiting, holder, holder(waiting(t).value).value, p[1..], q[1..]);
    } else {
      assert p[1..] == q[1..];
    }
  }

  /** A chain's suffix is the chain of the thread it starts with. */
  lemma {:induction false} ChainSuffix(waiting: Waits, holder: Holders, t: Tid, p: seq<Tid>, i: nat)
    requires IsChain(waiting, holder, t, p) && i < |p|
    ensures IsChain(waiting, holder, p[i], p[i..])
    decreases |p|
  {
    if i == 0 {
      assert p[0..] == p;
    } else {
      ChainSuffix(waiting, holder, holder(waiting(t).value).value, p[1..], i - 1);
      assert p[i..] == p[1..][i - 1..];
    }
  }

  /** No thread occurs twice on a chain. */
  lemma ChainDistinct(waiting: Waits, holder: Holders, t: Tid, p: seq<Tid>, i: nat, j: nat)
    requires IsChain(waiting, holder, t, p) && i < j < |p|
    ensures p[i] != p[j]
  {
    if p[i] == p[j] {
      ChainSuffix(waiting, holder, t, p, i);
      ChainSuffix(waiting, holder, t, p, j);
      ChainUnique(waiting, holder, p[i], p[i..], p[j..]);
    }
  }

  /** Along a chain, each thread but the last waits for a lock the next one holds. */
  lemma ChainNext(waiting: Waits, holder: Holders, t: Tid, p: seq<Tid>, i: nat)
    requires IsChain(waiting, holder, t, p) && i < |p|
    ensures waiting(p[i]).Some? <==> i + 1 < |p|
    ensures i + 1 < |p| ==> holder(waiting(p[i]).value) == Some(p[i + 1])
  {
    ChainSuffix(waiting, holder, t, p, i);
    assert p[i..][0] == p[i];
    if i + 1 < |p| {
      assert p[i..][1..][0] == p[i + 1];
    }
  }

  /** Taking waits away, and renaming holders nobody waits for, keeps chains finite. */
  lemma {:induction false} ChainShrinks(waiting: Waits, holder: Holders, waiting': Waits, holder': Holders, t: Tid,
      p: seq<Tid>)
    requires IsChain(waiting, holder, t, p)
    requires forall u :: waiting'(u).Some? ==>
      waiting'(u) == waiting(u) && holder'(waiting(u).value) == holder(waiting(u).value)
    ensures Ends(waiting', holder', t)
    decreases |p|
  {
    if waiting'(t).Some? {
      var next := holder(waiting(t).value).value;
      ChainShrinks(waiting, holder, waiting', holder', next, p[1..]);
      var q :| IsChain(waiting', holder', next, q);
      assert ([t] + q)[1..] == q;
      assert IsChain(waiting', holder', t, [t] + q);
    } else {
      assert IsChain(waiting', holder', t, [t]);
    }
  }

  /** A chain that avoids r does not notice that r starts to wait. */
  lemma {:induction false} ChainAvoids(waiting: Waits, holder: Holders, r: Tid, l: LockId, t: Tid, p: seq<Tid>)
    requires IsChain(waiting, holder, t, p) && r !in p
    ensures IsChain(Put(waiting, r, Some(l)), holder, t, p)
    decreases |p|
  {
    assert t == p[0];
    if waiting(t).Some? {
      ChainAvoids(waiting, holder, r, l, holder(waiting(t).value).value, p[1..]);
    }
  }

  /** When r starts to wait for l, the chains that ended in r go on with the
      chain of l's holder. */
  lemma {:induction false} ChainGrows(waiting: Waits, holder: Holders, r: Tid, l: LockId, path: seq<Tid>, t: Tid,
      p: seq<Tid>)
    requires IsChain(waiting, holder, t, p) && waiting(r) == None && holder(l).Some?
    requires IsChain(Put(waiting, r, Some(l)), holder, holder(l).value, path)
    ensures Ends(Put(waiting, r, Some(l)), holder, t)
    decreases |p|
  {
    var waiting' := Put(waiting, r, Some(l));
    if t == r {
      assert ([r] + path)[1..] == path;
      assert IsChain(waiting', holder, t, [r] + path);
    } else if waiting(t).Some? {
      var next := holder(waiting(t).value).value;
      ChainGrows(waiting, holder, r, l, path, next, p[1..]);
      var q :| IsChain(waiting', holder, next, q);
      assert ([t] + q)[1..] == q;
      assert IsChain(waiting', holder, t, [t] + q);
    } else {
      assert IsChain(waiting', holder, t, [t]);
    }
  }

  // ---------- when donate_priority ends ----------

  /** A walk that must come to r, from which it starts over, has no end. */
  lemma {:induction false} NoWayRound(waiting: Waits, holder: Holders, r: Tid, l: LockId, t: Tid, p: seq<Tid>,
      whole: seq<Tid>, q: seq<Tid>)
    requires holder(l).Some? && waiting(r) == None
    requires IsChain(waiting, holder, holder(l).value, whole) && r in whole
    requires IsChain(waiting, holder, t, p) && r in p
    requires IsChain(Put(waiting, r, Some(l)), holder, t, q)
    ensures false
    decreases |q|
  {
    if t == r {
      NoWayRound(waiting, holder, r, l, holder(l).value, whole, whole, q[1..]);
    } else {
      assert p == [t] + p[1..];
      assert |p| > 1 by {
        assert p[1..] != [];
      }
      NoWayRound(waiting, holder, r, l, holder(waiting(t).value).value, p[1..], whole, q[1..]);
    }
  }

  /** The loop of donate_priority for r waiting on l, held by h, ends if and only
      if r is not on the chain of h: if acquiring l closes no cycle. */
  lemma DonationEndsIff(y: Sync, r: Tid, l: LockId, h: Tid, p: seq<Tid>)
    requires y.waiting(r) == None && y.holder(l) == Some(h)
    requires IsChain(y.waiting, y.holder, h, p)
    ensures Ends(Put(y.waiting, r, Some(l)), y.holder, h) <==> r !in p
  {
    if r !in p {
      ChainAvoids(y.waiting, y.holder, r, l, h, p);
    } else if Ends(Put(y.waiting, r, Some(l)), y.holder, h) {
      var q :| IsChain(Put(y.waiting, r, Some(l)), y.holder, h, q);
      NoWayRound(y.waiting, y.holder, r, l, h, p, p, q);
    }
  }

  // ---------- one step ----------

  lemma AcyclicShrinks(y: Sync, y': Sync)
    requires Acyclic(y)
    requires forall u :: y'.waiting(u).Some? ==>
      y'.waiting(u) == y.waiting(u) && y'.holder(y.waiting(u).value) == y.holder(y.waiting(u).value)
    ensures Acyclic(y')
  {
    forall t ensures Ends(y'.waiting, y'.holder, t) {
      assert Ends(y.waiting, y.holder, t);
      var p :| IsChain(y.waiting, y.holder, t, p);
      ChainShrinks(y.waiting, y.holder, y'.waiting, y'.holder, t, p);
    }
  }

  lemma AcyclicGrows(y: Sync, r: Tid, l: LockId, path: seq<Tid>, y': Sync)
    requires Acyclic(y) && y.waiting(r) == None && y.holder(l).Some?
    requires IsChain(Put(y.waiting, r, Some(l)), y.holder, y.holder(l).value, path)
    requires y'.waiting == Put(y.waiting, r, Some(l)) && y'.holder == y.holder
    ensures Acyclic(y')
  {
    forall t ensures Ends(y'.waiting, y'.holder, t) {
      assert Ends(y.waiting, y.holder, t);
      var p :| IsChain(y.waiting, y.holder, t, p);
      ChainGrows(y.waiting, y.holder, r, l, path, t, p);
    }
  }

  lemma ReleaseKeepsAcyclic(y: Sync, r: Tid, l: LockId, next: Then)
    requires Acyclic(y) && Graph(y) && y.holder(l) == Some(r)
    ensures Acyclic(Unhold(y, r, l, next))
  {
    hide Graph, Unhold, Acyclic;
    var y' := Unhold(y, r, l, next);
    forall u | y'.waiting(u).Some?
      ensures y'.waiting(u) == y.waiting(u) && y'.holder(y.waiting(u).value) == y.holder(y.waiting(u).value)
    {
      UnholdFrees(y, r, l, next, u);
    }
    AcyclicShrinks(y, y');
  }

  /** Waits and holders change at three points only. */
  lemma ExecLeavesWaits(y: Sync, r: Tid, path: seq<Tid>, order: seq<Tid>)
    requires !y.pc(r).Own? && !y.pc(r).Release?
    requires y.pc(r).Acquire? ==> y.holder(y.pc(r).lock) == None
    ensures var y' := Exec(y, r, path, order).0; y'.waiting == y.waiting && y'.holder == y.holder
  {
    hide Sort, Insert;
  }

  /** Whatever the running thread does next, no cycle of waits arises. */
  lemma RunKeepsAcyclic(y: Sync, r: Tid, path: seq<Tid>, order: seq<Tid>)
    requires Acyclic(y) && Graph(y) && Exclusive(y) && Held(y) && Active(y, r)
    requires CanRun(y, r, path, order)
    ensures Acyclic(Exec(y, r, path, order).0)
  {
    hide Acyclic, Graph, Exclusive, Held, Active, Exec, IsChain;
    ActiveWaitsForNothing(y, r);
    ActiveIsThread(y, r);
    HeldAt(y, r);
    match y.pc(r) {
      case Own(l, tried) => OwnKeepsAcyclic(y, r, l, tried, path, order);
      case Release(l, next) =>
        ExecIsUnhold(y, r, path, order);
        ReleaseKeepsAcyclic(y, r, l, next);
      case Acquire(l) =>
        if y.holder(l).Some? {
          AcquireKeepsAcyclic(y, r, l, path, order);
        } else {
          ExecLeavesWaits(y, r, path, order);
          AcyclicShrinks(y, Exec(y, r, path, order).0);
        }
      case _ =>
        ExecLeavesWaits(y, r, path, order);
        AcyclicShrinks(y, Exec(y, r, path, order).0);
    }
  }

  lemma ExecIsUnhold(y: Sync, r: Tid, path: seq<Tid>, order: seq<Tid>)
    requires y.pc(r).Release?
    ensures Exec(y, r, path, order).0 == Unhold(y, r, y.pc(r).lock, y.pc(r).next)
  {
  }

  lemma OwnKeepsAcyclic(y: Sync, r: Tid, l: LockId, tried: bool, path: seq<Tid>, order: seq<Tid>)
    requires Acyclic(y) && Graph(y) && Exclusive(y) && Held(y) && r in y.threads
    requires y.waiting(r) == None && y.pc(r) == Own(l, tried)
    ensures Acyclic(Exec(y, r, path, order).0)
  {
    hide Acyclic, Graph, Exclusive, Held;
    NoHolder(y, r, l);
    var y' := Exec(y, r, path, order).0;
    forall u | y'.waiting(u).Some?
      ensures y'.waiting(u) == y.waiting(u) && y'.holder(y.waiting(u).value) == y.holder(y.waiting(u).value)
    {
      GraphAt(y, r, u);
    }
    AcyclicShrinks(y, y');
  }

  lemma AcquireKeepsAcyclic(y: Sync, r: Tid, l: LockId, path: seq<Tid>, order: seq<Tid>)
    requires Acyclic(y) && y.waiting(r) == None && y.pc(r) == Acquire(l) && y.holder(l).Some?
    requires y.holder(l) != Some(r) && CanRun(y, r, path, order)
    ensures Acyclic(Exec(y, r, path, order).0)
  {
    hide Acyclic, Insert, IsChain;
    AcyclicGrows(y, r, l, path, Exec(y, r, path, order).0);
  }

  // ---------- a ranking of locks ----------

  /** Every waiting thread waits for a lock ranked above all those it holds. */
  ghost predicate Ranked(y: Sync, rank: LockId -> int) {
    forall t, k :: y.waiting(t).Some? && y.holder(k) == Some(t) ==> rank(k) < rank(y.waiting(t).value)
  }

  /** t holds only locks ranked below l: the rule for acquiring l. */
  ghost predicate MayAcquire(y: Sync, rank: LockId -> int, t: Tid, l: LockId) {
    forall k :: y.holder(k) == Some(t) ==> rank(k) < rank(l)
  }

  /** Ranks rise along a chain: each thread on it holds a lock ranked at least as high as the first's. */
  lemma {:induction false} RankRises(y: Sync, rank: LockId -> int, t: Tid, k: LockId, p: seq<Tid>, i: nat)
    requires Ranked(y, rank) && IsChain(y.waiting, y.holder, t, p) && i < |p|
    requires y.holder(k) == Some(t)
    ensures exists m :: y.holder(m) == Some(p[i]) && (if i == 0 then rank(m) >= rank(k) else rank(m) > rank(k))
    decreases |p|
  {
    if i > 0 {
      var l := y.waiting(t).value;
      RankRises(y, rank, y.holder(l).value, l, p[1..], i - 1);
    }
  }

  /** A thread that keeps to the ranking never closes a cycle: donate_priority ends. */
  lemma RankedDonationEnds(y: Sync, rank: LockId -> int, r: Tid, l: LockId, h: Tid)
    requires Acyclic(y) && Ranked(y, rank) && MayAcquire(y, rank, r, l)
    requires y.waiting(r) == None && y.holder(l) == Some(h)
    ensures Ends(Put(y.waiting, r, Some(l)), y.holder, h)
  {
    assert Ends(y.waiting, y.holder, h);
    var p :| IsChain(y.waiting, y.holder, h, p);
    if r in p {
      var i :| 0 <= i < |p| && p[i] == r;
      RankRises(y, rank, h, l, p, i);
    }
    DonationEndsIff(y, r, l, h, p);
  }

  /** If each acquisition keeps to the ranking, every state does. */
  lemma RunKeepsRanked(y: Sync, rank: LockId -> int, r: Tid, path: seq<Tid>, order: seq<Tid>)
    requires Ranked(y, rank) && Graph(y) && Exclusive(y) && Held(y) && Active(y, r)
    requires y.pc(r).Acquire? ==> MayAcquire(y, rank, r, y.pc(r).lock)
    ensures Ranked(Exec(y, r, path, order).0, rank)
  {
    hide Ranked, Graph, Exclusive, Held, Active, Exec;
    ActiveWaitsForNothing(y, r);
    HeldAt(y, r);
    match y.pc(r) {
      case Own(l, tried) => OwnKeepsRanked(y, rank, r, l, tried, path, order);
      case Release(l, next) =>
        ExecIsUnhold(y, r, path, order);
        ReleaseKeepsRanked(y, rank, r, l, next);
      case Acquire(l) =>
        if y.holder(l).Some? {
          AcquireKeepsRanked(y, rank, r, l, path, order);
        } else {
          ExecLeavesWaits(y, r, path, order);
          SameRanked(y, Exec(y, r, path, order).0, rank);
        }
      case _ =>
        ExecLeavesWaits(y, r, path, order);
        SameRanked(y, Exec(y, r, path, order).0, rank);
    }
  }

  lemma SameRanked(y: Sync, y': Sync, rank: LockId -> int)
    requires Ranked(y, rank) && y'.waiting == y.waiting && y'.holder == y.holder
    ensures Ranked(y', rank)
  {
  }

  lemma OwnKeepsRanked(y: Sync, rank: LockId -> int, r: Tid, l: LockId, tried: bool, path: seq<Tid>, order: seq<Tid>)
    requires Ranked(y, rank) && y.waiting(r) == None && y.pc(r) == Own(l, tried)
    ensures Ranked(Exec(y, r, path, order).0, rank)
  {
  }

  lemma AcquireKeepsRanked(y: Sync, rank: LockId -> int, r: Tid, l: LockId, path: seq<Tid>, order: seq<Tid>)
    requires Ranked(y, rank) && MayAcquire(y, rank, r, l) && y.pc(r) == Acquire(l) && y.holder(l).Some?
    ensures Ranked(Exec(y, r, path, order).0, rank)
  {
    hide Insert;
  }

  lemma ReleaseKeepsRanked(y: Sync, rank: LockId -> int, r: Tid, l: LockId, next: Then)
    requires Ranked(y, rank) && Graph(y) && y.holder(l) == Some(r)
    ensures Ranked(Unhold(y, r, l, next), rank)
  {
    hide Graph, Unhold;
    var y' := Unhold(y, r, l, next);
    forall t, k | y'.waiting(t).Some? && y'.holder(k) == Some(t)
      ensures rank(k) < rank(y'.waiting(t).value)
    {
      UnholdFrees(y, r, l, next, t);
    }
  }
}
