/** Facts about the kernel's loops over lists: ordered insertion, sorting, and
    walks that remove elements from the list they walk. */
module Loops {
  import opened Lists
  import M = Machine

  type Tid = M.Tid

  lemma PlaceIs(key: Total<Tid, int>, xs: seq<Tid>, t: Tid, i: nat)
    requires i <= |xs| && (forall k :: 0 <= k < i ==> key(xs[k]) >= key(t))
    requires i < |xs| ==> key(xs[i]) < key(t)
    ensures Place(key, xs, t) == i
  {
  }

  lemma {:induction false} FilterConcat(keep: set<Tid>, xs: seq<Tid>, ys: seq<Tid>)
    ensures Filter(keep, xs + ys) == Filter(keep, xs) + Filter(keep, ys)
  {
    if xs == [] {
      assert xs + ys == ys;
    } else {
      FilterConcat(keep, xs[1..], ys);
      assert (xs + ys)[1..] == xs[1..] + ys;
    }
  }

  lemma FilterNext(keep: set<Tid>, xs: seq<Tid>, k: nat)
    requires k < |xs|
    ensures Filter(keep, xs[..k + 1]) == Filter(keep, xs[..k]) + if xs[k] in keep then [xs[k]] else []
  {
    assert xs[..k + 1] == xs[..k] + [xs[k]];
    FilterConcat(keep, xs[..k], [xs[k]]);
    assert [xs[k]][1..] == [];
  }

  lemma ChainStart(y: M.Sync, h: Tid, path: seq<Tid>)
    requires M.IsChain(y.waiting, y.holder, h, path)
    ensures path != [] && path[0] == h && path[0..] == path
  {
  }

  lemma ChainAt(y: M.Sync, path: seq<Tid>, k: nat)
    requires k < |path| && M.IsChain(y.waiting, y.holder, path[k], path[k..])
    ensures y.waiting(path[k]) == M.None <==> k + 1 == |path|
    ensures k + 1 < |path| ==> y.holder(y.waiting(path[k]).value) == M.Some(path[k + 1])
    ensures k + 1 < |path| ==> M.IsChain(y.waiting, y.holder, path[k + 1], path[k + 1..])
  {
    assert path[k..][1..] == path[k + 1..];
  }

  /** remove_lock after looking at the first k of r's donors, with xs left in the list. */
  ghost function Freeing(y: M.Sync, r: Tid, l: M.LockId, k: nat, xs: seq<Tid>): M.Sync
    requires k <= |y.donations(r)|
  {
    y.(waiting := (t: Tid) => if t in M.Freed(y, r, l) && t in y.donations(r)[..k] then M.None else y.waiting(t),
       donations := Put(y.donations, r, xs))
  }

  /** The next donor waits for l exactly if it is one to free. */
  lemma FreedIff(y: M.Sync, r: Tid, l: M.LockId, k: nat, xs: seq<Tid>)
    requires NoDup(y.donations(r)) && k < |y.donations(r)|
    ensures Freeing(y, r, l, k, xs).waiting(y.donations(r)[k]) == M.Some(l) <==>
            y.donations(r)[k] !in M.Kept(y, r, l)
    ensures Freeing(y, r, l, k, xs).donations(r) == xs
  {
    NoDupAt(y.donations(r), k);
    var t := y.donations(r)[k];
    assert t in y.donations(r);
  }

  lemma NoDupAt(xs: seq<Tid>, k: nat)
    requires NoDup(xs) && k < |xs|
    ensures xs[k] !in xs[..k]
  {
    assert xs == xs[..k] + [xs[k]] + xs[k + 1..];
    assert multiset(xs)[xs[k]] == 1;
  }

  lemma SortNext(key: Total<Tid, int>, xs: seq<Tid>, i: nat)
    requires i < |xs|
    ensures Sort(key, xs[..i + 1]) == Insert(key, Sort(key, xs[..i]), xs[i])
  {
    assert xs[..i + 1][..i] == xs[..i];
  }

  /** A walk over the list all that removes elements: the first k have been
      looked at, those of them in keep make up now[..i], and the rest is untouched. */
  ghost predicate Walked(keep: set<Tid>, all: seq<Tid>, k: nat, now: seq<Tid>, i: nat) {
    k <= |all| && i <= |now| && now[..i] == Filter(keep, all[..k]) && now[i..] == all[k..]
  }

  lemma WalkAt(keep: set<Tid>, all: seq<Tid>, k: nat, now: seq<Tid>, i: nat)
    requires Walked(keep, all, k, now, i) && i < |now|
    ensures k < |all| && now[i] == all[k] && now[i] in all && now[i] in now
  {
    assert now[i..][0] == all[k..][0];
  }

  lemma WalkRemove(keep: set<Tid>, all: seq<Tid>, k: nat, now: seq<Tid>, i: nat)
    requires Walked(keep, all, k, now, i) && i < |now| && now[i] !in keep
    ensures k < |all| && Walked(keep, all, k + 1, Without(now, i), i)
  {
    WalkAt(keep, all, k, now, i);
    FilterNext(keep, all, k);
    assert now[i + 1..] == now[i..][1..];
    assert all[k + 1..] == all[k..][1..];
  }

  lemma WalkKeep(keep: set<Tid>, all: seq<Tid>, k: nat, now: seq<Tid>, i: nat)
    requires Walked(keep, all, k, now, i) && i < |now| && now[i] in keep
    ensures k < |all| && Walked(keep, all, k + 1, now, i + 1)
  {
    WalkAt(keep, all, k, now, i);
    FilterNext(keep, all, k);
    assert now[..i + 1] == now[..i] + [now[i]];
    assert now[i + 1..] == now[i..][1..];
    assert all[k + 1..] == all[k..][1..];
  }

  lemma WalkEnd(keep: set<Tid>, all: seq<Tid>, k: nat, now: seq<Tid>, i: nat)
    requires Walked(keep, all, k, now, i) && i == |now|
    ensures k == |all| && now == Filter(keep, all)
  {
    assert |now[i..]| == 0 && |all[k..]| == |all| - k;
    assert now[..i] == now && all[..|all|] == all;
  }

  function Without(xs: seq<Tid>, i: nat): seq<Tid>
    requires i < |xs|
  {
    xs[..i] + xs[i + 1..]
  }

  ghost function Ticked(c: M.Cpu): M.Cpu {
    c.(ticks := c.ticks + 1, slice := c.slice + 1)
  }

  lemma TimerTickIs(c: M.Cpu, prio: Total<Tid, int>)
    ensures M.TimerTick(c, prio) ==
            var c' := M.Awake(Ticked(c), prio);
            if c.slice + 1 >= M.TIME_SLICE then M.YieldCpu(c', prio) else c'
  {
    UnblockAllFrame(Ticked(c).(sleeping := Filter(M.NotDue(Ticked(c)), c.sleeping)), prio,
                    Filter(M.Due(Ticked(c)), c.sleeping));
  }

  /** thread_awake after unblocking ts, with xs left in the sleeping list. */
  ghost function Awoken(c: M.Cpu, prio: Total<Tid, int>, ts: seq<Tid>, xs: seq<Tid>): M.Cpu {
    M.UnblockAll(c, prio, ts).(sleeping := xs)
  }

  lemma AwakeStart(c: M.Cpu, prio: Total<Tid, int>)
    ensures Awoken(c, prio, [], c.sleeping) == c
    ensures Walked(M.NotDue(c), c.sleeping, 0, c.sleeping, 0)
    ensures Filter(M.Due(c), c.sleeping[..0]) == []
  {
  }

  lemma AwokenNext(c: M.Cpu, prio: Total<Tid, int>, ts: seq<Tid>, xs: seq<Tid>, i: nat)
    requires i < |xs|
    ensures M.Unblock(Awoken(c, prio, ts, xs).(sleeping := Without(xs, i)), prio, xs[i]) ==
            Awoken(c, prio, ts + [xs[i]], Without(xs, i))
  {
    UnblockAllNext(c, prio, ts, xs[i]);
  }

  lemma AwokenFrame(c: M.Cpu, prio: Total<Tid, int>, ts: seq<Tid>, xs: seq<Tid>)
    ensures var r := Awoken(c, prio, ts, xs); r.sleeping == xs && r.wake == c.wake && r.ticks == c.ticks
  {
    UnblockAllFrame(c, prio, ts);
  }

  lemma AwokenEnd(c: M.Cpu, prio: Total<Tid, int>)
    ensures Awoken(c, prio, Filter(M.Due(c), c.sleeping), Filter(M.NotDue(c), c.sleeping)) == M.Awake(c, prio)
  {
    UnblockAllSleeping(c, prio, Filter(M.Due(c), c.sleeping), Filter(M.NotDue(c), c.sleeping));
  }

  lemma DueIs(c: M.Cpu, t: Tid)
    requires t in c.sleeping
    ensures t in M.Due(c) <==> c.wake(t) <= c.ticks
    ensures t in M.NotDue(c) <==> c.wake(t) > c.ticks
  {
  }

  lemma {:induction false} UnblockAllNext(c: M.Cpu, prio: Total<Tid, int>, ts: seq<Tid>, t: Tid)
    ensures M.UnblockAll(c, prio, ts + [t]) == M.Unblock(M.UnblockAll(c, prio, ts), prio, t)
    decreases |ts|
  {
    if ts == [] {
      assert (ts + [t])[1..] == [];
    } else {
      UnblockAllNext(M.Unblock(c, prio, ts[0]), prio, ts[1..], t);
      assert (ts + [t])[1..] == ts[1..] + [t];
    }
  }

  lemma {:induction false} UnblockAllSleeping(c: M.Cpu, prio: Total<Tid, int>, ts: seq<Tid>, xs: seq<Tid>)
    ensures M.UnblockAll(c.(sleeping := xs), prio, ts) == M.UnblockAll(c, prio, ts).(sleeping := xs)
    decreases |ts|
  {
    if ts != [] {
      UnblockAllSleeping(M.Unblock(c, prio, ts[0]), prio, ts[1..], xs);
    }
  }

  lemma {:induction false} UnblockAllFrame(c: M.Cpu, prio: Total<Tid, int>, ts: seq<Tid>)
    ensures var r := M.UnblockAll(c, prio, ts); r == c.(ready := r.ready, status := r.status)
    decreases |ts|
  {
    if ts != [] {
      UnblockAllFrame(M.Unblock(c, prio, ts[0]), prio, ts[1..]);
    }
  }
}
