/**
 The list operations the kernel relies on, over a key that says how urgent an
 element is: ordered insertion (before the first element that is strictly less
 urgent) and a stable sort, most urgent first.
 */
module Lists {

  /** A field of a family of objects: one value for every name. */
  type Total<!K(!new), V> = K -> V

  ghost function Put<K(!new), V>(f: Total<K, V>, k: K, v: V): Total<K, V> {
    x => if x == k then v else f(x)
  }

  /** No element occurs twice. */
  ghost predicate NoDup<T(!new)>(xs: seq<T>) {
    forall x :: x in xs ==> multiset(xs)[x] == 1
  }

  /** Some member of a set. */
  method Pick<T>(xs: set<T>) returns (x: T)
    requires xs != {}
    ensures x in xs
  {
    x :| x in xs;
  }

  /** Most urgent first. */
  ghost predicate Descending<T(!new)>(key: Total<T, int>, xs: seq<T>)
  {
    forall i, j :: 0 <= i < j < |xs| ==> key(xs[i]) >= key(xs[j])
  }

  /** Where list_insert_ordered stops: the first element strictly less urgent than x. */
  ghost function Place<T(!new)>(key: Total<T, int>, xs: seq<T>, x: T): (p: nat)
    ensures p <= |xs|
    ensures forall i :: 0 <= i < p ==> key(xs[i]) >= key(x)
    ensures p < |xs| ==> key(xs[p]) < key(x)
  {
    if xs == [] || key(x) > key(xs[0]) then 0 else 1 + Place(key, xs[1..], x)
  }

  /** list_insert_ordered: before the first element strictly less urgent than x. */
  ghost function Insert<T(!new)>(key: Total<T, int>, xs: seq<T>, x: T): (r: seq<T>)
    ensures multiset(r) == multiset(xs) + multiset{x}
    ensures |r| == |xs| + 1
  {
    var p := Place(key, xs, x);
    assert xs == xs[..p] + xs[p..];
    xs[..p] + [x] + xs[p..]
  }

  lemma InsertDescending<T(!new)>(key: Total<T, int>, xs: seq<T>, x: T)
    requires Descending(key, xs)
    ensures Descending(key, Insert(key, xs, x))
  {
    var p := Place(key, xs, x);
    var r := Insert(key, xs, x);
    forall i, j | 0 <= i < j < |r| ensures key(r[i]) >= key(r[j]) {
      assert r[i] == if i < p then xs[i] else if i == p then x else xs[i - 1];
      assert r[j] == if j < p then xs[j] else if j == p then x else xs[j - 1];
      if i == p {
        assert key(xs[p]) >= key(xs[j - 1]);
      }
    }
  }

  /** list_sort: elements are inserted from first to last, so equals keep their order. */
  ghost function Sort<T(!new)>(key: Total<T, int>, xs: seq<T>): (r: seq<T>)
    ensures multiset(r) == multiset(xs)
    ensures |r| == |xs|
    ensures Descending(key, r)
  {
    if xs == [] then []
    else
      var n := |xs| - 1;
      assert xs == xs[..n] + [xs[n]];
      var q := Sort(key, xs[..n]);
      assert Descending(key, Insert(key, q, xs[n])) by { InsertDescending(key, q, xs[n]); }
      Insert(key, q, xs[n])
  }

  /** A list holds exactly the elements its multiset holds. */
  lemma SameMembers<T(!new)>(xs: seq<T>, ys: seq<T>)
    requires multiset(xs) == multiset(ys)
    ensures forall y :: y in xs <==> y in ys
  {
    forall y ensures y in xs <==> y in ys {
      assert y in xs <==> y in multiset(xs);
      assert y in ys <==> y in multiset(ys);
    }
  }

  lemma InsertMembers<T(!new)>(key: Total<T, int>, xs: seq<T>, x: T)
    ensures forall y :: y in Insert(key, xs, x) <==> y in xs || y == x
  {
    SameMembers(Insert(key, xs, x), xs + [x]);
  }

  lemma SortMembers<T(!new)>(key: Total<T, int>, xs: seq<T>)
    ensures forall y :: y in Sort(key, xs) <==> y in xs
  {
    SameMembers(Sort(key, xs), xs);
  }

  /** The elements of urgency k, in list order. */
  ghost function Level<T(!new)>(key: Total<T, int>, xs: seq<T>, k: int): seq<T>
  {
    if xs == [] then []
    else
      var n := |xs| - 1;
      Level(key, xs[..n], k) + if key(xs[n]) == k then [xs[n]] else []
  }

  lemma {:induction false} LevelConcat<T(!new)>(key: Total<T, int>, xs: seq<T>, ys: seq<T>, k: int)
    ensures Level(key, xs + ys, k) == Level(key, xs, k) + Level(key, ys, k)
  {
    if ys == [] {
      assert xs + ys == xs;
    } else {
      var n := |ys| - 1;
      LevelConcat(key, xs, ys[..n], k);
      assert (xs + ys)[..|xs + ys| - 1] == xs + ys[..n];
    }
  }

  lemma LevelOne<T(!new)>(key: Total<T, int>, x: T, k: int)
    ensures Level(key, [x], k) == if key(x) == k then [x] else []
  {
    assert [x][..0] == [];
  }

  lemma LevelLast<T(!new)>(key: Total<T, int>, xs: seq<T>, k: int)
    requires xs != []
    ensures var n := |xs| - 1;
            var all := Level(key, xs, k);
            if key(xs[n]) == k then all == Level(key, xs[..n], k) + [xs[n]] else all == Level(key, xs[..n], k)
  {
  }

  /** No element of a descending list whose head is below k has urgency k. */
  lemma {:induction false} LevelAbove<T(!new)>(key: Total<T, int>, xs: seq<T>, k: int)
    requires Descending(key, xs)
    requires xs != [] ==> key(xs[0]) < k
    ensures Level(key, xs, k) == []
  {
    if xs != [] {
      LevelAbove(key, xs[..|xs| - 1], k);
    }
  }

  lemma LevelSplit<T(!new)>(key: Total<T, int>, a: seq<T>, x: T, b: seq<T>, k: int)
    ensures Level(key, a + [x] + b, k) == Level(key, a, k) + (if key(x) == k then [x] else []) + Level(key, b, k)
  {
    LevelConcat(key, a, [x], k);
    LevelConcat(key, a + [x], b, k);
    LevelOne(key, x, k);
  }

  lemma LevelInsert<T(!new)>(key: Total<T, int>, a: seq<T>, x: T, b: seq<T>, k: int)
    requires key(x) == k ==> Level(key, b, k) == []
    ensures Level(key, a + [x] + b, k) == Level(key, a + b, k) + if key(x) == k then [x] else []
  {
    LevelConcat(key, a, b, k);
    LevelSplit(key, a, x, b, k);
  }

  lemma DropDescending<T(!new)>(key: Total<T, int>, xs: seq<T>, p: nat)
    requires p <= |xs| && Descending(key, xs)
    ensures Descending(key, xs[p..])
  {
  }

  /** Ordered insertion into a descending list queues x behind its equals. */
  lemma {:induction false} InsertIsFifo<T(!new)>(key: Total<T, int>, xs: seq<T>, x: T, k: int)
    requires Descending(key, xs)
    ensures Level(key, Insert(key, xs, x), k) == Level(key, xs, k) + if key(x) == k then [x] else []
  {
    var p := Place(key, xs, x);
    if key(x) == k {
      DropDescending(key, xs, p);
      LevelAbove(key, xs[p..], k);
    }
    LevelInsert(key, xs[..p], x, xs[p..], k);
    assert xs[..p] + xs[p..] == xs;
  }

  /** The sort is stable: elements of equal urgency keep their order. */
  lemma {:induction false} SortIsStable<T(!new)>(key: Total<T, int>, xs: seq<T>, k: int)
    ensures Level(key, Sort(key, xs), k) == Level(key, xs, k)
  {
    if xs != [] {
      var n := |xs| - 1;
      SortIsStable(key, xs[..n], k);
      InsertIsFifo(key, Sort(key, xs[..n]), xs[n], k);
    }
  }

  /** Every member of a level is in the list with that urgency. */
  lemma {:induction false} LevelMember<T(!new)>(key: Total<T, int>, xs: seq<T>, k: int, x: T)
    ensures x in Level(key, xs, k) <==> x in xs && key(x) == k
  {
    if xs != [] {
      var n := |xs| - 1;
      LevelMember(key, xs[..n], k, x);
      assert xs == xs[..n] + [xs[n]];
    }
  }

  lemma LevelHead<T(!new)>(key: Total<T, int>, q: seq<T>)
    requires q != []
    ensures Level(key, q, key(q[0])) != [] && Level(key, q, key(q[0]))[0] == q[0]
  {
    assert q == [] + [q[0]] + q[1..];
    LevelSplit(key, [], q[0], q[1..], key(q[0]));
  }

  /** The head of the sorted list is the first of the most urgent elements. */
  lemma {:induction false} SortHead<T(!new)>(key: Total<T, int>, xs: seq<T>)
    requires xs != []
    ensures var h := Sort(key, xs)[0];
            && h in xs
            && (forall y :: y in xs ==> key(y) <= key(h))
            && Level(key, xs, key(h)) != [] && Level(key, xs, key(h))[0] == h
  {
    var q := Sort(key, xs);
    SortMembers(key, xs);
    SortIsStable(key, xs, key(q[0]));
    LevelHead(key, q);
  }

  /** If the last element of ys occurs in xs, it is at least as urgent as the last of xs. */
  lemma LastIsLeast<T(!new)>(key: Total<T, int>, xs: seq<T>, ys: seq<T>)
    requires xs != [] && ys != [] && Descending(key, xs)
    requires Level(key, xs, key(ys[|ys| - 1])) == Level(key, ys, key(ys[|ys| - 1]))
    ensures key(ys[|ys| - 1]) >= key(xs[|xs| - 1])
  {
    var y := ys[|ys| - 1];
    LevelMember(key, ys, key(y), y);
    LevelMember(key, xs, key(y), y);
    var i :| 0 <= i < |xs| && xs[i] == y;
  }

  /** Lists with the same level k whose last elements have urgency k agree there. */
  lemma DropLast<T(!new)>(key: Total<T, int>, xs: seq<T>, ys: seq<T>, k: int)
    requires xs != [] && ys != [] && Level(key, xs, k) == Level(key, ys, k)
    requires key(xs[|xs| - 1]) == key(ys[|ys| - 1])
    ensures key(xs[|xs| - 1]) == k ==> xs[|xs| - 1] == ys[|ys| - 1]
    ensures Level(key, xs[..|xs| - 1], k) == Level(key, ys[..|ys| - 1], k)
  {
    LevelLast(key, xs, k);
    LevelLast(key, ys, k);
    var a, b := Level(key, xs[..|xs| - 1], k), Level(key, ys[..|ys| - 1], k);
    if key(xs[|xs| - 1]) == k {
      assert (a + [xs[|xs| - 1]])[..|a|] == a;
      assert (b + [ys[|ys| - 1]])[..|b|] == b;
    }
  }

  ghost predicate SameLevel<T(!new)>(key: Total<T, int>, xs: seq<T>, ys: seq<T>, k: int) {
    Level(key, xs, k) == Level(key, ys, k)
  }

  lemma SameLevelsEmpty<T(!new)>(key: Total<T, int>, xs: seq<T>, ys: seq<T>)
    requires forall k :: SameLevel(key, xs, ys, k)
    ensures xs == [] ==> ys == []
  {
    if ys != [] {
      LevelMember(key, ys, key(ys[0]), ys[0]);
      assert SameLevel(key, xs, ys, key(ys[0]));
    }
  }

  /** Descending order and the order within each level determine the list, so
      Sort is the only stable sort. */
  lemma {:induction false} SortUnique<T(!new)>(key: Total<T, int>, xs: seq<T>, ys: seq<T>)
    requires Descending(key, xs) && Descending(key, ys)
    requires forall k :: SameLevel(key, xs, ys, k)
    ensures xs == ys
  {
    SameLevelsEmpty(key, xs, ys);
    if xs != [] {
      forall k ensures SameLevel(key, ys, xs, k) {
        assert SameLevel(key, xs, ys, k);
      }
      SameLevelsEmpty(key, ys, xs);
      SameLast(key, xs, ys);
      var n, m := |xs| - 1, |ys| - 1;
      forall k ensures SameLevel(key, xs[..n], ys[..m], k) {
        assert SameLevel(key, xs, ys, k);
        DropLast(key, xs, ys, k);
      }
      SortUnique(key, xs[..n], ys[..m]);
      assert xs == xs[..n] + [xs[n]];
      assert ys == ys[..m] + [ys[m]];
    }
  }

  lemma SameLast<T(!new)>(key: Total<T, int>, xs: seq<T>, ys: seq<T>)
    requires xs != [] && ys != [] && Descending(key, xs) && Descending(key, ys)
    requires forall k :: SameLevel(key, xs, ys, k)
    ensures xs[|xs| - 1] == ys[|ys| - 1]
  {
    var x, y := xs[|xs| - 1], ys[|ys| - 1];
    assert SameLevel(key, xs, ys, key(x)) && SameLevel(key, xs, ys, key(y));
    LastIsLeast(key, xs, ys);
    LastIsLeast(key, ys, xs);
    DropLast(key, xs, ys, key(x));
  }

  lemma NoDupInsert<T(!new)>(key: Total<T, int>, xs: seq<T>, x: T)
    requires NoDup(xs) && x !in xs
    ensures NoDup(Insert(key, xs, x))
  {
    var r := Insert(key, xs, x);
    forall y | y in r ensures multiset(r)[y] == 1 {
      assert x !in multiset(xs);
      assert y in xs ==> multiset(xs)[y] == 1;
    }
  }

  lemma NoDupSort<T(!new)>(key: Total<T, int>, xs: seq<T>)
    requires NoDup(xs)
    ensures NoDup(Sort(key, xs))
  {
    var r := Sort(key, xs);
    SortMembers(key, xs);
    forall y | y in r ensures multiset(r)[y] == 1 {
      assert y in xs;
    }
  }

  lemma NoDupTail<T(!new)>(xs: seq<T>)
    requires NoDup(xs) && xs != []
    ensures NoDup(xs[1..]) && xs[0] !in xs[1..]
    ensures forall y :: y in xs[1..] <==> y in xs && y != xs[0]
  {
    assert xs == [xs[0]] + xs[1..];
    assert multiset(xs) == multiset{xs[0]} + multiset(xs[1..]);
    forall y | y in xs[1..] ensures multiset(xs[1..])[y] == 1 && y != xs[0] {
      assert y in xs;
      assert multiset(xs)[y] == 1;
      assert y in multiset(xs[1..]);
    }
  }

  /** The elements that satisfy keep, in list order. */
  ghost function Filter<T(!new)>(keep: set<T>, xs: seq<T>): (r: seq<T>)
  {
    if xs == [] then []
    else
      assert xs == [xs[0]] + xs[1..];
      if xs[0] in keep then [xs[0]] + Filter(keep, xs[1..]) else Filter(keep, xs[1..])
  }

  lemma {:induction false} FilterMembers<T(!new)>(keep: set<T>, xs: seq<T>)
    ensures forall y :: y in Filter(keep, xs) <==> y in xs && y in keep
    ensures forall y :: multiset(Filter(keep, xs))[y] == if y in keep then multiset(xs)[y] else 0
  {
    if xs != [] {
      FilterMembers(keep, xs[1..]);
      assert xs == [xs[0]] + xs[1..];
    }
  }

  lemma NoDupFilter<T(!new)>(keep: set<T>, xs: seq<T>)
    requires NoDup(xs)
    ensures NoDup(Filter(keep, xs))
  {
    FilterMembers(keep, xs);
    var r := Filter(keep, xs);
    forall y | y in r ensures multiset(r)[y] == 1 {
      assert y in xs && y in keep;
    }
  }
}
