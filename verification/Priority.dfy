/** A thread's priority is the highest of its own and its donors'. */
module Priority {
  import opened Lists
  import opened Machine
  import opened Parking
  import opened Ownership
  import opened Donation
  import opened Chains

  /** p is the highest of base and the priorities of donors. */
  ghost predicate IsHighest(p: int, base: int, prio: Total<Tid, int>, donors: seq<Tid>) {
    && base <= p
    && (forall d :: d in donors ==> prio(d) <= p)
    && (p == base || exists d :: d in donors && prio(d) == p)
  }

  ghost predicate Effective(y: Sync) {
    forall t :: HighestAt(y, t)
  }

  /** t's priority is the highest of its own and its donors'. */
  ghost predicate HighestAt(y: Sync, t: Tid) {
    IsHighest(y.prio(t), y.init(t), y.prio, y.donations(t))
  }

  /** r's priority is at least that of every thread on path. */
  ghost predicate Dominates(y: Sync, r: Tid, path: seq<Tid>) {
    forall u :: u in path ==> y.prio(u) <= y.prio(r)
  }

  // ---------- reset_priority ----------

  /** reset_priority makes the thread's priority the highest of its own and its donors'. */
  lemma ResetIsHighest(y: Sync, r: Tid)
    requires r !in y.donations(r)
    ensures var y' := Reset(y, r); HighestAt(y', r)
    ensures forall t :: t != r ==> Reset(y, r).prio(t) == y.prio(t) && Reset(y, r).donations(t) == y.donations(t)
  {
    var prio := Put(y.prio, r, y.init(r));
    var y' := Reset(y, r);
    if y.donations(r) != [] {
      SortHead(prio, y.donations(r));
      SortMembers(prio, y.donations(r));
      var q := Sort(prio, y.donations(r));
      HighestOf(prio, y'.prio, r, q, q[0]);
    }
  }

  /** Raising r to the most urgent element of q, if that is above r, makes r the highest. */
  lemma HighestOf(prio: Total<Tid, int>, prio': Total<Tid, int>, r: Tid, q: seq<Tid>, top: Tid)
    requires r !in q && top in q && forall d :: d in q ==> prio(d) <= prio(top)
    requires forall d :: d != r ==> prio'(d) == prio(d)
    requires prio'(r) == if prio(r) < prio(top) then prio(top) else prio(r)
    ensures IsHighest(prio'(r), prio(r), prio', q)
  {
    assert prio'(top) == prio(top);
  }

  lemma ResetKeepsInit(y: Sync, r: Tid)
    ensures Reset(y, r).init == y.init
  {
  }

  lemma ResetKeepsEffective(y: Sync, r: Tid)
    requires Graph(y) && y.waiting(r) == None
    requires forall t :: t != r ==> HighestAt(y, t)
    ensures Effective(Reset(y, r))
  {
    hide Graph, Sort, Reset, IsHighest;
    var y' := Reset(y, r);
    GraphAt(y, r, r);
    ResetIsHighest(y, r);
    ResetKeepsInit(y, r);
    forall t ensures HighestAt(y', t) {
      if t != r {
        GraphAt(y, t, r);
        assert HighestAt(y, t);
        SameHighest(y.prio(t), y.init(t), y.prio, y'.prio, y.donations(t));
      }
    }
  }

  lemma SameHighest(p: int, base: int, prio: Total<Tid, int>, prio': Total<Tid, int>, donors: seq<Tid>)
    requires IsHighest(p, base, prio, donors)
    requires forall d :: d in donors ==> prio'(d) == prio(d)
    ensures IsHighest(p, base, prio', donors)
  {
  }

  /** A thread that waits for no lock is nobody's donor, so its priority matters to nobody. */
  lemma OthersHighest(y: Sync, y': Sync, r: Tid, t: Tid)
    requires Effective(y) && Graph(y) && y.waiting(r) == None && t != r
    requires y'.prio(t) == y.prio(t) && y'.init(t) == y.init(t) && y'.donations(t) == y.donations(t)
    requires forall d :: d != r ==> y'.prio(d) == y.prio(d)
    ensures HighestAt(y', t)
  {
    assert r !in y.donations(t);
    assert HighestAt(y, t);
    SameHighest(y.prio(t), y.init(t), y.prio, y'.prio, y.donations(t));
  }

  /** Losing donors other than r's changes nothing for threads other than r. */
  lemma ReleaseKeepsEffective(y: Sync, r: Tid, l: LockId, next: Then)
    requires Effective(y) && Graph(y) && y.waiting(r) == None && y.holder(l) == Some(r)
    ensures Effective(Unhold(y, r, l, next))
  {
    var y1 := y.(holder := Put(y.holder, l, None), pc := Put(y.pc, r, ReleaseUp(l, next)));
    assert Freed(y1, r, l) == Freed(y, r, l) && Kept(y1, r, l) == Kept(y, r, l);
    RemoveLockKeepsGraph(y, r, l, ReleaseUp(l, next));
    var y2 := RemoveLock(y1, r, l);
    forall t | t != r ensures HighestAt(y2, t) {
      assert HighestAt(y, t);
    }
    RemoveLockFrees(y, r, l, r);
    ResetKeepsEffective(y2, r);
  }

  lemma AssignKeepsEffective(y: Sync, r: Tid, p: int)
    requires Effective(y) && Graph(y) && y.waiting(r) == None
    ensures Effective(Assign(y, r, p))
  {
    var y1 := y.(pc := Put(y.pc, r, User), prio := Put(y.prio, r, p), init := Put(y.init, r, p));
    GraphMove(y, y1, r, User);
    forall t | t != r ensures HighestAt(y1, t) {
      OthersHighest(y, y1, r, t);
    }
    ResetKeepsEffective(y1, r);
  }

  // ---------- donate_priority ----------

  /** A donor on the chain donates to a thread on the chain; one off it, to one off it
      or to the chain's first thread. */
  lemma DonorNext(y: Sync, h: Tid, path: seq<Tid>, t: Tid, d: Tid)
    requires Graph(y) && IsChain(y.waiting, y.holder, h, path) && d in y.donations(t) && d in path
    ensures t in path
  {
    var i :| 0 <= i < |path| && path[i] == d;
    ChainNext(y.waiting, y.holder, h, path, i);
  }

  /** Every thread on the chain but the first has a donor on the chain. */
  lemma DonorBefore(y: Sync, h: Tid, path: seq<Tid>, t: Tid) returns (d: Tid)
    requires Graph(y) && IsChain(y.waiting, y.holder, h, path) && t in path && t != h
    ensures d in path && d in y.donations(t)
  {
    var i :| 0 <= i < |path| && path[i] == t;
    ChainNext(y.waiting, y.holder, h, path, i - 1);
    d := path[i - 1];
  }

  /** The walk after r's wait is recorded visits the same threads as before, and not r. */
  lemma ChainBefore(y: Sync, r: Tid, l: LockId, h: Tid, path: seq<Tid>)
    requires Acyclic(y) && y.waiting(r) == None && y.holder(l) == Some(h)
    requires IsChain(Put(y.waiting, r, Some(l)), y.holder, h, path)
    ensures IsChain(y.waiting, y.holder, h, path) && r !in path
  {
    assert Ends(y.waiting, y.holder, h);
    var p :| IsChain(y.waiting, y.holder, h, p);
    DonationEndsIff(y, r, l, h, p);
    ChainAvoids(y.waiting, y.holder, r, l, h, p);
    ChainUnique(Put(y.waiting, r, Some(l)), y.holder, h, p, path);
  }

  lemma DominatingDonation(y: Sync, r: Tid, l: LockId, h: Tid, path: seq<Tid>)
    requires Graph(y) && Effective(y) && y.waiting(r) == None && y.holder(l) == Some(h)
    requires IsChain(y.waiting, y.holder, h, path) && r !in path
    requires Dominates(y, r, path)
    ensures Effective(Donate(y, r, l, h, path))
  {
    var y' := Donate(y, r, l, h, path);
    InsertMembers(y.prio, y.donations(h), r);
    forall t ensures HighestAt(y', t) {
      assert HighestAt(y, t);
      if t in path {
        RaisedIsHighest(y, r, l, h, path, t);
      } else {
        forall d | d in y.donations(t) ensures y'.prio(d) == y.prio(d) {
          if d in path {
            DonorNext(y, h, path, t, d);
          }
        }
        SameHighest(y.prio(t), y.init(t), y.prio, y'.prio, y.donations(t));
      }
    }
  }

  lemma RaisedIsHighest(y: Sync, r: Tid, l: LockId, h: Tid, path: seq<Tid>, t: Tid)
    requires Graph(y) && Effective(y) && y.waiting(r) == None && y.holder(l) == Some(h)
    requires IsChain(y.waiting, y.holder, h, path) && r !in path
    requires Dominates(y, r, path) && t in path
    ensures var y' := Donate(y, r, l, h, path); HighestAt(y', t)
  {
    var y' := Donate(y, r, l, h, path);
    InsertMembers(y.prio, y.donations(h), r);
    assert HighestAt(y, t);
    forall d | d in y'.donations(t) ensures y'.prio(d) <= y'.prio(t) {
      assert d == r || d in y.donations(t);
    }
    if t == h {
      assert r in y'.donations(t) && y'.prio(r) == y'.prio(t);
    } else {
      var d := DonorBefore(y, h, path, t);
      assert d in y'.donations(t) && y'.prio(d) == y'.prio(t);
    }
  }

  /** After an exact donation, a chain thread that was above the donor had a donor
      on the chain that was as high. */
  lemma HigherDonor(y: Sync, r: Tid, l: LockId, h: Tid, path: seq<Tid>, u: Tid) returns (d: Tid)
    requires Effective(y) && r !in path && u in path && y.prio(u) > y.prio(r)
    requires Effective(Donate(y, r, l, h, path))
    ensures d in y.donations(u) && d in path && y.prio(d) > y.prio(r)
  {
    var y' := Donate(y, r, l, h, path);
    assert HighestAt(y', u);
    assert HighestAt(y, u);
    d :| d in y.donations(u) && y.prio(d) == y.prio(u);
    assert d in y'.donations(u) by {
      InsertMembers(y.prio, y.donations(h), r);
    }
    assert y'.prio(d) <= y'.prio(u);
  }

  /** If a donation leaves every priority exact, no thread on the chain was above the donor. */
  lemma {:induction false} ExactDonationDominates(y: Sync, r: Tid, l: LockId, h: Tid, path: seq<Tid>, i: nat)
    requires Graph(y) && Effective(y)
    requires IsChain(y.waiting, y.holder, h, path) && r !in path && i < |path|
    requires Effective(Donate(y, r, l, h, path))
    ensures y.prio(path[i]) <= y.prio(r)
  {
    if y.prio(path[i]) > y.prio(r) {
      var d := HigherDonor(y, r, l, h, path, path[i]);
      var j :| 0 <= j < |path| && path[j] == d;
      DonorJustBefore(y, h, path, i, j);
      ExactDonationDominates(y, r, l, h, path, j);
      assert false;
    }
  }

  /** A chain thread's donor on the chain comes just before it. */
  lemma DonorJustBefore(y: Sync, h: Tid, path: seq<Tid>, i: nat, j: nat)
    requires Graph(y) && IsChain(y.waiting, y.holder, h, path) && i < |path| && j < |path|
    requires path[j] in y.donations(path[i])
    ensures j + 1 == i
  {
    ChainNext(y.waiting, y.holder, h, path, j);
    var d, u := path[j], path[i];
    assert d in y.donations(u);
    assert y.waiting(d).Some? && y.holder(y.waiting(d).value) == Some(u);
    if j + 1 < i {
      ChainDistinct(y.waiting, y.holder, h, path, j + 1, i);
    } else if i < j + 1 {
      ChainDistinct(y.waiting, y.holder, h, path, i, j + 1);
    }
  }

  /** Exactness of every priority survives a donation if and only if the donor is
      at least as high as every thread on its chain. */
  lemma DonationExactIff(y: Sync, r: Tid, l: LockId, h: Tid, path: seq<Tid>)
    requires Graph(y) && Effective(y) && Acyclic(y) && y.waiting(r) == None && y.holder(l) == Some(h)
    requires IsChain(Put(y.waiting, r, Some(l)), y.holder, h, path)
    ensures Effective(Donate(y, r, l, h, path)) <==> Dominates(y, r, path)
  {
    ChainBefore(y, r, l, h, path);
    if Dominates(y, r, path) {
      DominatingDonation(y, r, l, h, path);
    } else if Effective(Donate(y, r, l, h, path)) {
      var u :| u in path && y.prio(u) > y.prio(r);
      var i :| 0 <= i < |path| && path[i] == u;
      ExactDonationDominates(y, r, l, h, path, i);
    }
  }

  /** donate_priority stores the donor's priority in the chain's threads and in no other. */
  lemma DonationTouchesChain(y: Sync, r: Tid, l: LockId, h: Tid, path: seq<Tid>, t: Tid)
    requires Graph(y) && Acyclic(y) && y.waiting(r) == None && y.holder(l) == Some(h)
    requires IsChain(Put(y.waiting, r, Some(l)), y.holder, h, path)
    ensures Donate(y, r, l, h, path).prio(t) == if t in path then y.prio(r) else y.prio(t)
    ensures Donate(y, r, l, h, path).prio(r) == y.prio(r)
    ensures t in path && y.waiting(t).Some? ==> y.holder(y.waiting(t).value).Some? && y.holder(y.waiting(t).value).value in path
  {
    ChainBefore(y, r, l, h, path);
    if t in path {
      var i :| 0 <= i < |path| && path[i] == t;
      ChainNext(y.waiting, y.holder, h, path, i);
    }
  }

  // ---------- one step ----------

  /** r's next step donates from below: it waits for a holder whose chain has a higher thread. */
  ghost predicate DonatesFromBelow(y: Sync, r: Tid, path: seq<Tid>) {
    y.pc(r).Acquire? && y.holder(y.pc(r).lock).Some? && !Dominates(y, r, path)
  }

  /** A step of the running thread keeps all priorities exact if and only if it
      is not a donation from below. */
  lemma RunKeepsEffectiveIff(y: Sync, r: Tid, path: seq<Tid>, order: seq<Tid>)
    requires Graph(y) && Effective(y) && Acyclic(y) && Exclusive(y) && Held(y) && Active(y, r)
    requires CanRun(y, r, path, order)
    ensures Effective(Exec(y, r, path, order).0) <==> !DonatesFromBelow(y, r, path)
  {
    ActiveWaitsForNothing(y, r);
    assert HeldOk(r, y.pc(r), y.holder);
    match y.pc(r) {
      case Acquire(l) => AcquireEffectiveIff(y, r, l, path);
      case Release(l, next) => ReleaseKeepsEffective(y, r, l, next);
      case SetPriority(p) => AssignKeepsEffective(y, r, p);
      case _ => SameEffective(y, Exec(y, r, path, order).0);
    }
  }

  lemma SameEffective(y: Sync, y': Sync)
    requires y'.prio == y.prio && y'.init == y.init && y'.donations == y.donations
    ensures Effective(y') <==> Effective(y)
  {
    forall t ensures HighestAt(y', t) <==> HighestAt(y, t) {
    }
  }

  lemma AcquireEffectiveIff(y: Sync, r: Tid, l: LockId, path: seq<Tid>)
    requires Graph(y) && Effective(y) && Acyclic(y) && y.waiting(r) == None
    requires y.holder(l).Some? ==> IsChain(Put(y.waiting, r, Some(l)), y.holder, y.holder(l).value, path)
    ensures Effective(StartAcquire(y, r, l, path).0) <==> (y.holder(l).Some? ==> Dominates(y, r, path))
  {
    var y1 := Move(y, r, LockDown(l, false));
    if y.holder(l).Some? {
      var h := y.holder(l).value;
      DonationExactIff(y, r, l, h, path);
      SameEffective(Donate(y, r, l, h, path), Donate(y1, r, l, h, path));
      SameEffective(Donate(y1, r, l, h, path), StartAcquire(y, r, l, path).0);
    } else {
      SameEffective(y, y1);
    }
  }

  lemma AddKeepsEffective(y: Sync, t: Tid, p: int)
    requires Effective(y) && Graph(y) && Parked(y) && t !in y.threads
    ensures Effective(AddThread(y, t, p))
  {
    var y' := AddThread(y, t, p);
    assert y.pc(t) == User;
    assert y.waiting(t) == None;
    forall u ensures HighestAt(y', u) {
      if u != t {
        OthersHighest(y, y', t, u);
      }
    }
  }
}
