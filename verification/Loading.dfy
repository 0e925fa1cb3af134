/**
 Demand paging preserves the meaning of an executable: what a program reads is
 what the eager loader would have put there, which is what its headers ask for.
 */
module Loading {
  import opened Segments
  import opened Paging

  // ---------- the eager loader ----------

  ghost predicate Available(file: File, sl: Slot, table: Word -> bool)
    requires sl.Valid()
  {
    Has(file, sl.Start(), sl.Read()) && table(sl.Addr())
  }

  ghost predicate DistinctPages(sls: seq<Slot>) {
    forall i, j :: 0 <= i < j < |sls| ==> sls[i].Addr() != sls[j].Addr()
  }

  ghost predicate Fresh(pages: map<Word, Page>, sls: seq<Slot>)
    requires AllValid(sls)
  {
    forall sl :: sl in sls ==> sl.Addr() !in pages
  }

  function PageOf(file: File, sl: Slot): Page
    requires sl.Valid() && Has(file, sl.Start(), sl.Read())
  {
    Page(PageBytes(file, sl.Start(), sl.Read()), sl.plan.writable)
  }

  /** pages is pages0 with the pages of sls added. */
  ghost predicate Filled(file: File, pages0: map<Word, Page>, pages: map<Word, Page>, sls: seq<Slot>)
    requires AllValid(sls)
  {
    && (forall sl :: sl in sls ==> Has(file, sl.Start(), sl.Read()) && sl.Addr() in pages && pages[sl.Addr()] == PageOf(file, sl))
    && (forall a :: a in pages0 ==> a in pages && pages[a] == pages0[a])
    && (forall a :: a in pages ==> a in pages0 || exists sl :: sl in sls && sl.Addr() == a)
  }

  lemma Prefix(sls: seq<Slot>)
    requires sls != [] && AllValid(sls)
    ensures AllValid(sls[..|sls| - 1]) && sls[|sls| - 1].Valid()
    ensures forall sl :: sl in sls <==> sl in sls[..|sls| - 1] || sl == sls[|sls| - 1]
  {
    assert sls == sls[..|sls| - 1] + [sls[|sls| - 1]];
  }

  lemma LastApart(sls: seq<Slot>)
    requires sls != [] && DistinctPages(sls)
    ensures DistinctPages(sls[..|sls| - 1])
    ensures forall sl :: sl in sls[..|sls| - 1] ==> sl.Addr() != sls[|sls| - 1].Addr()
  {
    var n := |sls| - 1;
    forall sl | sl in sls[..n] ensures sl.Addr() != sls[n].Addr() {
      var i :| 0 <= i < n && sls[..n][i] == sl;
      assert sls[i].Addr() != sls[n].Addr();
    }
    forall i, j | 0 <= i < j < n ensures sls[..n][i].Addr() != sls[..n][j].Addr() {
      assert sls[i].Addr() != sls[j].Addr();
    }
  }

  lemma AllApart(sls: seq<Slot>)
    requires sls != [] && DistinctPages(sls[..|sls| - 1])
    requires forall sl :: sl in sls[..|sls| - 1] ==> sl.Addr() != sls[|sls| - 1].Addr()
    ensures DistinctPages(sls)
  {
    var n := |sls| - 1;
    forall i, j | 0 <= i < j < |sls| ensures sls[i].Addr() != sls[j].Addr() {
      if j == n {
        assert sls[..n][i] in sls[..n];
      } else {
        assert sls[..n][i].Addr() != sls[..n][j].Addr();
      }
    }
  }

  lemma AddrIsWord(sl: Slot)
    requires sl.Valid()
    ensures 0 <= sl.Addr() < WORD
  {
  }

  lemma FilledNext(file: File, pages0: map<Word, Page>, pages: map<Word, Page>, sls: seq<Slot>)
    requires sls != [] && AllValid(sls) && AllValid(sls[..|sls| - 1]) && Filled(file, pages0, pages, sls[..|sls| - 1])
    requires var last := sls[|sls| - 1];
             last.Valid() && last.Addr() !in pages && Has(file, last.Start(), last.Read())
    ensures var last := sls[|sls| - 1]; Filled(file, pages0, pages[last.Addr() := PageOf(file, last)], sls)
  {
    hide Slot.Addr, Slot.Read, Slot.Start, Slot.Valid, PageBytes, Has;
    var last := sls[|sls| - 1];
    AddrIsWord(last);
    var pages' := pages[last.Addr() := PageOf(file, last)];
    Prefix(sls);
    forall a | a in pages' && a !in pages0 ensures exists sl :: sl in sls && sl.Addr() == a {
      if a == last.Addr() {
        assert last in sls;
      } else {
        var sl :| sl in sls[..|sls| - 1] && sl.Addr() == a;
        assert sl in sls;
      }
    }
  }

  /** What success means. */
  lemma {:induction false} EagerFills(file: File, s: Space, sls: seq<Slot>, table: Word -> bool)
    requires AllValid(sls)
    ensures var (s', ok) := EagerAll(file, s, sls, table);
            ok ==>
              && s'.free == s.free - |sls| && Filled(file, s.pages, s'.pages, sls)
              && DistinctPages(sls) && Fresh(s.pages, sls) && forall sl :: sl in sls ==> table(sl.Addr())
  {
    hide Slot.Addr, Slot.Read, Slot.Start, Slot.Valid, PageBytes, Has, Filled, DistinctPages;
    if sls == [] {
      FilledNone(file, s.pages);
    } else {
      var n := |sls| - 1;
      Prefix(sls);
      EagerFills(file, s, sls[..n], table);
      var s1 := EagerAll(file, s, sls[..n], table).0;
      if EagerAll(file, s, sls, table).1 {
        FilledNext(file, s.pages, s1.pages, sls);
        FilledHolds(file, s.pages, s1.pages, sls[..n]);
        AllApart(sls);
      }
    }
  }

  lemma FilledNone(file: File, pages: map<Word, Page>)
    ensures Filled(file, pages, pages, []) && DistinctPages([])
  {
  }

  lemma FilledHolds(file: File, pages0: map<Word, Page>, pages: map<Word, Page>, sls: seq<Slot>)
    requires AllValid(sls) && Filled(file, pages0, pages, sls)
    ensures forall sl :: sl in sls ==> sl.Addr() in pages
    ensures forall a :: a in pages0 ==> a in pages
  {
  }

  lemma {:induction false} EagerSucceeds(file: File, s: Space, sls: seq<Slot>, table: Word -> bool)
    requires AllValid(sls) && DistinctPages(sls) && Fresh(s.pages, sls) && |sls| <= s.free
    requires forall sl :: sl in sls ==> Available(file, sl, table)
    ensures EagerAll(file, s, sls, table).1
  {
    hide Slot.Addr, Slot.Read, Slot.Start, Slot.Valid, PageBytes, Has;
    if sls != [] {
      var n := |sls| - 1;
      Prefix(sls);
      LastApart(sls);
      EagerSucceeds(file, s, sls[..n], table);
      EagerFills(file, s, sls[..n], table);
      var s1, last := EagerAll(file, s, sls[..n], table).0, sls[n];
      assert last in sls && Available(file, last, table);
      assert last.Addr() !in s1.pages;
    }
  }

  /** Exactly when the eager loader succeeds: no two segments share a page or reach
      into the stack page, the file has all the bytes, and memory suffices. */
  lemma EagerLoadsIff(file: File, free: nat, ps: seq<Phdr>, table: Word -> bool)
    requires HeadersOk(ps, |file|)
    ensures var sls := AllSlots(ps, |file|);
            EagerLoad(file, free, ps, table).1 <==>
            && DistinctPages(sls) && |sls| < free && table(STACK)
            && forall sl :: sl in sls ==> Available(file, sl, table) && sl.Addr() != STACK
  {
    var sls, s := AllSlots(ps, |file|), Space(map[], free);
    EagerFills(file, s, sls, table);
    if DistinctPages(sls) && |sls| <= free && forall sl :: sl in sls ==> Available(file, sl, table) {
      EagerSucceeds(file, s, sls, table);
    }
  }

  // ---------- the lazy loader ----------

  /** Where segments share a page, the entry is the first one's. */
  lemma {:induction false} FirstInserted(sls: seq<Slot>, i: nat)
    requires AllValid(sls) && i < |sls| && sls[i].Valid()
    requires forall j :: 0 <= j < i ==> sls[j].Addr() != sls[i].Addr()
    ensures sls[i].Addr() in InsertAll(map[], sls)
    ensures InsertAll(map[], sls)[sls[i].Addr()] == EntryOf(sls[i])
  {
    hide Slot.Addr, Slot.Read, Slot.Start, Slot.Valid;
    var n := |sls| - 1;
    Prefix(sls);
    if i < n {
      assert sls[..n][i] == sls[i];
      FirstInserted(sls[..n], i);
    } else {
      OnlyInserted(sls[..n]);
      forall j | 0 <= j < n ensures sls[..n][j].Addr() != sls[n].Addr() {
        assert sls[j] == sls[..n][j];
      }
    }
  }

  lemma {:induction false} OnlyInserted(sls: seq<Slot>)
    requires AllValid(sls)
    ensures forall a :: a in InsertAll(map[], sls) ==> exists j :: 0 <= j < |sls| && sls[j].Addr() == a
  {
    hide Slot.Addr, Slot.Read, Slot.Start, Slot.Valid;
    if sls != [] {
      var n := |sls| - 1;
      Prefix(sls);
      OnlyInserted(sls[..n]);
      var vm := InsertAll(map[], sls[..n]);
      assert InsertAll(map[], sls) == InsertOne(vm, EntryOf(sls[n]));
      forall a | a in InsertAll(map[], sls) ensures exists j :: 0 <= j < |sls| && sls[j].Addr() == a {
        if a == sls[n].Addr() {
        } else {
          assert a in vm;
          var j :| 0 <= j < n && sls[..n][j].Addr() == a;
          assert sls[j].Addr() == a;
        }
      }
    }
  }

  /** The entry for each page, once every page has one owner. */
  lemma InsertsAll(sls: seq<Slot>)
    requires AllValid(sls) && DistinctPages(sls)
    ensures forall sl :: sl in sls ==> sl.Addr() in InsertAll(map[], sls)
    ensures forall sl :: sl in sls ==> InsertAll(map[], sls)[sl.Addr()] == EntryOf(sl)
    ensures forall a :: a in InsertAll(map[], sls) ==> exists sl :: sl in sls && sl.Addr() == a
  {
    hide Slot.Addr, Slot.Read, Slot.Start, Slot.Valid, InsertAll, EntryOf;
    forall sl | sl in sls
      ensures sl.Addr() in InsertAll(map[], sls) && InsertAll(map[], sls)[sl.Addr()] == EntryOf(sl)
    {
      var i :| 0 <= i < |sls| && sls[i] == sl;
      FirstInserted(sls, i);
    }
    OnlyInserted(sls);
  }

  /** The entries of a segment point at its bytes exactly if its file part ends
      within the 32-bit range of offsets; validate_segment does not check that. */
  lemma OffsetsExactIff(pl: Plan)
    requires Whole(pl)
    ensures (forall sl :: sl in SlotsOf(pl) && sl.Read() > 0 && sl.Valid() ==> EntryOf(sl).offset == sl.Start())
            <==> pl.ofs + pl.readBytes <= WORD
  {
    if pl.ofs + pl.readBytes > WORD {
      var sl := WrappedSlot(pl);
    }
  }

  /** The page of the segment whose offset in the file should be 2^32. */
  lemma WrappedSlot(pl: Plan) returns (sl: Slot)
    requires Whole(pl) && pl.ofs + pl.readBytes > WORD
    ensures sl in SlotsOf(pl) && sl.Valid() && sl.Read() > 0
    ensures sl.Start() == WORD && EntryOf(sl).offset == 0
  {
    var k := (WORD - pl.ofs) / PGSIZE;
    WordIsPages(pl.ofs);
    sl := Slot(pl, k);
    assert SlotsOf(pl)[k] == sl;
  }

  lemma WordIsPages(ofs: Word)
    requires ofs % PGSIZE == 0
    ensures (WORD - ofs) / PGSIZE * PGSIZE == WORD - ofs
  {
    assert WORD == 0x10_0000 * PGSIZE;
  }

  /** It takes a file of more than 1 GiB. */
  lemma WrapNeedsLongFile(p: Phdr, fileLength: FileSize)
    requires Validate(p, fileLength) && PlanOf(p).ofs + PlanOf(p).readBytes > WORD
    ensures fileLength > 0x4000_0000
  {
    PlanExact(p, fileLength);
  }

  /** Such a header, for a file of almost 2 GiB. */
  lemma WrongBytesHeader(fileLength: FileSize)
    requires 0x7FFF_F000 <= fileLength
    ensures var p := Phdr(PT_LOAD, 0x7FFF_F000, PGSIZE, 0x8000_2000, 0x8000_2000, 0);
            Validate(p, fileLength) && PlanOf(p).ofs + PlanOf(p).readBytes > WORD
  {
    var p := Phdr(PT_LOAD, 0x7FFF_F000, PGSIZE, 0x8000_2000, 0x8000_2000, 0);
    ValidateIff(p, fileLength);
  }

  lemma HasExact(file: File, sl: Slot)
    requires sl.Valid() && Has(file, sl.Start(), sl.Read()) && sl.Read() > 0
    ensures EntryOf(sl).offset == sl.Start()
  {
  }

  /** A page that the lazy loader reads is the page the eager loader reads. */
  lemma SamePage(file: File, sl: Slot)
    requires sl.Valid() && Has(file, sl.Start(), sl.Read())
    ensures var e := EntryOf(sl);
            && Has(file, e.offset, e.readBytes)
            && Page(PageBytes(file, e.offset, e.readBytes), e.writable) == PageOf(file, sl)
  {
    var e := EntryOf(sl);
    if sl.Read() > 0 {
      HasExact(file, sl);
    } else {
      assert PageBytes(file, e.offset, 0) == PageBytes(file, sl.Start(), 0);
    }
  }

  // ---------- demand paging ----------

  /** m is part of what the eager loader made of e, with an entry for each page
      and frames left for the rest. */
  ghost predicate Partial(e: Space, sls: seq<Slot>, m: Memory)
    requires AllValid(sls)
  {
    && (forall a :: a in m.space.pages ==> a in e.pages && e.pages[a] == m.space.pages[a])
    && (forall sl :: sl in sls ==> sl.Addr() in m.vm && m.vm[sl.Addr()].(isLoaded := false) == EntryOf(sl))
    && STACK in m.space.pages
    && |e.pages| <= |m.space.pages| + m.space.free
  }

  lemma FewerPages(a: map<Word, Page>, b: map<Word, Page>, x: Word)
    requires (forall y :: y in a ==> y in b) && x in b && x !in a
    ensures |a| < |b| && |a[x := b[x]]| == |a| + 1
  {
    assert a.Keys <= b.Keys - {x};
    CardinalitySubset(a.Keys, b.Keys - {x});
    assert |a| == |a.Keys| && |b| == |b.Keys|;
    var c := a[x := b[x]];
    assert c.Keys == a.Keys + {x} && |c| == |c.Keys|;
  }

  lemma {:induction false} CardinalitySubset(a: set<Word>, b: set<Word>)
    requires a <= b
    ensures |a| <= |b|
  {
    if a != {} {
      var x :| x in a;
      CardinalitySubset(a - {x}, b - {x});
    }
  }

  /** Serving the fault for one page. */
  lemma FaultServed(file: File, e: Space, sls: seq<Slot>, m: Memory, sl: Slot, table: Word -> bool)
    requires AllValid(sls) && sl in sls && sl.Valid() && table(sl.Addr()) && Partial(e, sls, m)
    requires sl.Addr() in e.pages && sl.Addr() !in m.space.pages
    requires Has(file, sl.Start(), sl.Read()) && e.pages[sl.Addr()] == PageOf(file, sl)
    ensures sl.Addr() in m.vm && m.vm[sl.Addr()].(isLoaded := false) == EntryOf(sl)
    ensures m.space.free > 0
    ensures FaultOne(file, m.space, EntryOf(sl), table) ==
            (Space(m.space.pages[sl.Addr() := PageOf(file, sl)], m.space.free - 1), true)
  {
    SamePage(file, sl);
    FewerPages(m.space.pages, e.pages, sl.Addr());
  }

  lemma PartialNext(file: File, e: Space, sls: seq<Slot>, m: Memory, m': Memory, page: Word)
    requires AllValid(sls) && Partial(e, sls, m) && page in e.pages && page !in m.space.pages && page in m.vm
    requires m.space.free > 0
    requires m'.vm == m.vm[page := m.vm[page].(isLoaded := true)]
    requires m'.space == Space(m.space.pages[page := e.pages[page]], m.space.free - 1)
    ensures Partial(e, sls, m')
  {
    hide Slot.Addr, Slot.Read, Slot.Start, Slot.Valid;
    FewerPages(m.space.pages, e.pages, page);
  }

  /** Touching a page the eager loader mapped brings in the same page. */
  lemma TouchKeeps(file: File, e: Space, sls: seq<Slot>, m: Memory, a: Word, table: Word -> bool)
    requires AllValid(sls) && Loaded(file, e, sls) && Partial(e, sls, m) && PageStart(a) in e.pages
    requires forall sl :: sl in sls ==> table(sl.Addr())
    ensures var (m', ok) := Touch(file, m, a, table);
            && ok && Partial(e, sls, m') && PageStart(a) in m'.space.pages
            && forall x :: x in m.space.pages ==> x in m'.space.pages
  {
    hide Slot.Addr, Slot.Read, Slot.Start, Slot.Valid, PageBytes, Has, Partial;
    var page := PageStart(a);
    if page !in m.space.pages {
      StackPresent(e, sls, m);
      var sl :| sl in sls && sl.Addr() == page;
      assert sl.Valid();
      FaultServed(file, e, sls, m, sl, table);
      PartialNext(file, e, sls, m, Touch(file, m, a, table).0, page);
    }
  }

  lemma StackPresent(e: Space, sls: seq<Slot>, m: Memory)
    requires AllValid(sls) && Partial(e, sls, m)
    ensures STACK in m.space.pages
  {
  }

  /** e holds the pages of sls and the stack page. */
  ghost predicate Loaded(file: File, e: Space, sls: seq<Slot>)
    requires AllValid(sls)
  {
    && (forall sl :: sl in sls ==> Has(file, sl.Start(), sl.Read()) && sl.Addr() in e.pages && e.pages[sl.Addr()] == PageOf(file, sl))
    && (forall a :: a in e.pages ==> a == STACK || exists sl :: sl in sls && sl.Addr() == a)
  }

  lemma {:induction false} TouchesKeep(file: File, e: Space, sls: seq<Slot>, m: Memory, addrs: seq<Word>,
      table: Word -> bool)
    requires AllValid(sls) && Loaded(file, e, sls) && Partial(e, sls, m)
    requires forall sl :: sl in sls ==> table(sl.Addr())
    requires forall a :: a in addrs ==> PageStart(a) in e.pages
    ensures var (m', ok) := TouchAll(file, m, addrs, table);
            ok && Partial(e, sls, m') && forall a :: a in addrs ==> PageStart(a) in m'.space.pages
  {
    hide Loaded, Partial, Touch;
    if addrs != [] {
      var n := |addrs| - 1;
      assert addrs == addrs[..n] + [addrs[n]];
      TouchesKeep(file, e, sls, m, addrs[..n], table);
      TouchKeeps(file, e, sls, TouchAll(file, m, addrs[..n], table).0, addrs[n], table);
    }
  }

  lemma StackLoaded(file: File, s: Space, sls: seq<Slot>)
    requires AllValid(sls) && Filled(file, map[], s.pages, sls) && (forall sl :: sl in sls ==> sl.Addr() != STACK)
    requires s.free > 0
    ensures Loaded(file, Space(s.pages[STACK := ZeroPage()], s.free - 1), sls)
  {
    hide Slot.Addr, Slot.Read, Slot.Start, Slot.Valid, PageBytes, Has;
  }

  lemma LazyStarts(file: File, free: nat, sls: seq<Slot>, e: Space)
    requires AllValid(sls) && DistinctPages(sls) && (forall sl :: sl in sls ==> sl.Addr() != STACK)
    requires STACK in e.pages && e.pages[STACK] == ZeroPage() && |e.pages| <= free && free > 0
    ensures Partial(e, sls, Memory(InsertOne(InsertAll(map[], sls), StackEntry()), Space(map[STACK := ZeroPage()],
        free - 1)))
  {
    hide Slot.Addr, Slot.Read, Slot.Start, Slot.Valid;
    InsertsAll(sls);
    var pages := map[STACK := ZeroPage()];
    assert pages.Keys == {STACK} && |pages| == |pages.Keys|;
  }

  lemma OneMorePage(pages: map<Word, Page>)
    ensures |pages[STACK := ZeroPage()]| <= |pages| + 1
  {
    var pages' := pages[STACK := ZeroPage()];
    assert pages'.Keys == pages.Keys + {STACK} && |pages'| == |pages'.Keys| && |pages| == |pages.Keys|;
  }

  /** What both loaders leave, whenever the eager one succeeds. */
  lemma BothLoad(file: File, free: nat, ps: seq<Phdr>, table: Word -> bool)
    requires HeadersOk(ps, |file|) && EagerLoad(file, free, ps, table).1
    ensures var sls, e := AllSlots(ps, |file|), EagerLoad(file, free, ps, table).0;
            && LazyLoad(file, free, ps, table).1
            && Loaded(file, e, sls) && Partial(e, sls, LazyLoad(file, free, ps, table).0)
            && forall sl :: sl in sls ==> table(sl.Addr())
  {
    hide Slot.Addr, Slot.Read, Slot.Start, Slot.Valid, PageBytes, Has, Loaded, Partial, Filled, DistinctPages,
      EagerAll, InsertAll, AllSlots;
    var sls := AllSlots(ps, |file|);
    var s0 := Space(map[], free);
    var s := EagerAll(file, s0, sls, table).0;
    EagerLoadsIff(file, free, ps, table);
    EagerFills(file, s0, sls, table);
    StackLoaded(file, s, sls);
    EagerCount(file, s0, sls, table);
    OneMorePage(s.pages);
    LazyStarts(file, free, sls, EagerLoad(file, free, ps, table).0);
  }

  /** No frame is lost: a page mapped is a frame less. */
  lemma {:induction false} EagerCount(file: File, s: Space, sls: seq<Slot>, table: Word -> bool)
    requires AllValid(sls)
    ensures var s' := EagerAll(file, s, sls, table).0; |s'.pages| + s'.free == |s.pages| + s.free
  {
    if sls != [] {
      hide Slot.Addr, Slot.Read, Slot.Start, Slot.Valid, PageBytes, Has;
      var n := |sls| - 1;
      Prefix(sls);
      EagerCount(file, s, sls[..n], table);
      var (s1, ok) := EagerAll(file, s, sls[..n], table);
      AddrIsWord(sls[n]);
      if ok && EagerOne(file, s1, sls[n], table).1 {
        var pages := s1.pages[sls[n].Addr() := PageOf(file, sls[n])];
        assert pages.Keys == s1.pages.Keys + {sls[n].Addr()} && |pages| == |pages.Keys|
            && |s1.pages| == |s1.pages.Keys|;
      }
    }
  }

  /** Demand paging refines eager loading: if the eager loader succeeds, the lazy
      one does, and then every sequence of accesses to the program's pages is
      served, each page touched holding what the eager loader put there. */
  lemma LazyRefinesEager(file: File, free: nat, ps: seq<Phdr>, addrs: seq<Word>, table: Word -> bool)
    requires HeadersOk(ps, |file|) && EagerLoad(file, free, ps, table).1
    requires forall a :: a in addrs ==> PageStart(a) in EagerLoad(file, free, ps, table).0.pages
    ensures LazyLoad(file, free, ps, table).1
    ensures var pages := EagerLoad(file, free, ps, table).0.pages;
            var (m, ok) := TouchAll(file, LazyLoad(file, free, ps, table).0, addrs, table);
            && ok
            && (forall a :: a in addrs ==> PageStart(a) in m.space.pages)
            && (forall x :: x in m.space.pages ==> x in pages && m.space.pages[x] == pages[x])
  {
    BothLoad(file, free, ps, table);
    TouchesKeep(file, EagerLoad(file, free, ps, table).0, AllSlots(ps, |file|),
                LazyLoad(file, free, ps, table).0, addrs, table);
  }

  // ---------- what the headers ask for ----------

  /** load accepts a table of headers if and only if none is for a dynamic section, an interpreter or a shared
      library, and each loadable segment lies in user memory and starts in the file. */
  lemma HeadersOkIff(ps: seq<Phdr>, fileLength: FileSize)
    ensures HeadersOk(ps, fileLength) <==>
            forall p :: p in ps ==> p.kind !in {2, 3, 5} && (p.kind == 1 ==> Loadable(p, fileLength))
  {
    hide Validate, Loadable;
    forall p | p in ps ensures Validate(p, fileLength) <==> Loadable(p, fileLength) {
      ValidateIff(p, fileLength);
    }
  }

  function ByteAt(pages: map<Word, Page>, a: Word): int
    requires PageStart(a) in pages && |pages[PageStart(a)].bytes| == PGSIZE
  {
    pages[PageStart(a)].bytes[PageOffset(a)]
  }

  /** The page of a segment that holds its byte i, and where in the page it is. */
  lemma SlotOfByte(p: Phdr, fileLength: FileSize, i: nat) returns (sl: Slot)
    requires Validate(p, fileLength) && i < p.memsz
    ensures sl in SlotsOf(PlanOf(p)) && sl.Valid() && p.vaddr + i < WORD
    ensures sl.Addr() == PageStart(p.vaddr + i)
    ensures sl.plan == PlanOf(p) && sl.plan.upage + sl.k * PGSIZE + PageOffset(p.vaddr + i) == p.vaddr + i
  {
    PlanExact(p, fileLength);
    ValidateIff(p, fileLength);
    var pl := PlanOf(p);
    var k := (p.vaddr + i - pl.upage) / PGSIZE;
    sl := Slot(pl, k);
    PageOfByte(pl.upage, p.vaddr + i, k);
    WholePages(k, p.vaddr + i - pl.upage, pl.readBytes + pl.zeroBytes);
    assert SlotsOf(pl)[k] == sl;
  }

  lemma PageOfByte(upage: Word, a: Word, k: nat)
    requires upage % PGSIZE == 0 && upage <= a && k == (a - upage) / PGSIZE
    ensures upage + k * PGSIZE == PageStart(a) && a - PageStart(a) == PageOffset(a)
  {
    var q := upage / PGSIZE;
    assert upage == q * PGSIZE;
    assert a / PGSIZE == q + k by {
      assert (a - q * PGSIZE) / PGSIZE == a / PGSIZE - q;
    }
  }

  lemma WholePages(k: nat, d: nat, total: nat)
    requires k == d / PGSIZE && d < total && total % PGSIZE == 0
    ensures (k + 1) * PGSIZE <= total && k < total / PGSIZE
  {
    assert d / PGSIZE < total / PGSIZE;
  }

  lemma {:induction false} SlotInProgram(ps: seq<Phdr>, p: Phdr, sl: Slot)
    requires p in ps && p.kind == PT_LOAD && sl in SlotsOf(PlanOf(p))
    ensures sl in Slots(ps)
  {
    var n := |ps| - 1;
    assert ps == ps[..n] + [ps[n]];
    if p != ps[n] {
      SlotInProgram(ps[..n], p, sl);
    }
  }

  /** The page of a slot, byte by byte. */
  lemma SlotBytes(file: File, p: Phdr, sl: Slot, i: nat)
    requires Validate(p, |file|) && i < p.memsz && sl.Valid() && sl.plan == PlanOf(p)
    requires Has(file, sl.Start(), sl.Read())
    requires var j := p.vaddr + i - sl.Addr(); 0 <= j < PGSIZE
    ensures i < p.filesz ==> p.offset + i < |file|
    ensures PageOf(file, sl).bytes[p.vaddr + i - sl.Addr()] == if i < p.filesz then file[p.offset + i] else 0
  {
    PlanExact(p, |file|);
    var j := p.vaddr + i - sl.Addr();
    if i < p.filesz {
      assert j < sl.Read() && sl.Start() + j == p.offset + i;
    } else {
      assert j >= sl.Read();
    }
  }

  lemma SlotLoaded(file: File, e: Space, sls: seq<Slot>, sl: Slot)
    requires AllValid(sls) && Loaded(file, e, sls) && sl in sls
    ensures Has(file, sl.Start(), sl.Read()) && sl.Addr() in e.pages && e.pages[sl.Addr()] == PageOf(file, sl)
  {
  }

  lemma PageOfIs(file: File, sl: Slot)
    requires sl.Valid() && Has(file, sl.Start(), sl.Read())
    ensures |PageOf(file, sl).bytes| == PGSIZE && PageOf(file, sl).writable == sl.plan.writable
  {
  }

  lemma ByteOfPage(a: Word)
    ensures PageOffset(a) == a - PageStart(a) && 0 <= PageOffset(a) < PGSIZE
  {
  }

  /** After either loader, byte i of every loadable segment is the one its header
      asks for: the file's for the first p_filesz bytes, zero up to p_memsz. */
  lemma ImageIsRight(file: File, free: nat, ps: seq<Phdr>, p: Phdr, i: nat, table: Word -> bool)
    requires HeadersOk(ps, |file|) && EagerLoad(file, free, ps, table).1
    requires p in ps && p.kind == PT_LOAD && i < p.memsz
    ensures p.vaddr + i < WORD && (i < p.filesz ==> p.offset + i < |file|)
    ensures var pages := EagerLoad(file, free, ps, table).0.pages;
            && PageStart(p.vaddr + i) in pages && |pages[PageStart(p.vaddr + i)].bytes| == PGSIZE
            && ByteAt(pages, p.vaddr + i) == (if i < p.filesz then file[p.offset + i] else 0)
            && pages[PageStart(p.vaddr + i)].writable == (p.flags / PF_W % 2 == 1)
  {
    hide EagerLoad, LazyLoad, Loaded, Partial, SlotsOf, Validate, Slot.Valid, Slot.Addr, Slot.Start, Slot.Read, PageOf;
    BothLoad(file, free, ps, table);
    var sl := SlotOfByte(p, |file|, i);
    SlotInProgram(ps, p, sl);
    SlotLoaded(file, EagerLoad(file, free, ps, table).0, AllSlots(ps, |file|), sl);
    PageOfIs(file, sl);
    ByteOfPage(p.vaddr + i);
    SlotBytes(file, p, sl, i);
  }

  /** The same of demand paging, for any byte the program touches. */
  lemma LazyImageIsRight(file: File, free: nat, ps: seq<Phdr>, addrs: seq<Word>, p: Phdr, i: nat, table: Word -> bool)
    requires HeadersOk(ps, |file|) && EagerLoad(file, free, ps, table).1
    requires forall a :: a in addrs ==> PageStart(a) in EagerLoad(file, free, ps, table).0.pages
    requires p in ps && p.kind == PT_LOAD && i < p.memsz && p.vaddr + i in addrs
    ensures p.vaddr + i < WORD && (i < p.filesz ==> p.offset + i < |file|)
    ensures var pages := TouchAll(file, LazyLoad(file, free, ps, table).0, addrs, table).0.space.pages;
            && PageStart(p.vaddr + i) in pages && |pages[PageStart(p.vaddr + i)].bytes| == PGSIZE
            && ByteAt(pages, p.vaddr + i) == (if i < p.filesz then file[p.offset + i] else 0)
            && pages[PageStart(p.vaddr + i)].writable == (p.flags / PF_W % 2 == 1)
  {
    LazyRefinesEager(file, free, ps, addrs, table);
    ImageIsRight(file, free, ps, p, i, table);
  }
}
