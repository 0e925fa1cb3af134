/**
 Demand paging page by page: what a served access leaves in memory, whether or not
 the eager loader would have succeeded.
 */
module OnDemand {
  import opened Segments
  import opened Paging
  import opened Loading

  // ---------- whose entry serves a page ----------

  /** No slot before j has the address of slot i. */
  ghost predicate FirstAt(sls: seq<Slot>, i: nat, j: nat)
    requires i < |sls| && j < |sls|
  {
    sls[j].Addr() == sls[i].Addr() && forall k :: 0 <= k < j ==> sls[k].Addr() != sls[i].Addr()
  }

  lemma {:induction false} FirstExists(sls: seq<Slot>, i: nat, n: nat) returns (j: nat)
    requires i < |sls| && n <= i && forall k :: 0 <= k < n ==> sls[k].Addr() != sls[i].Addr()
    ensures j <= i && FirstAt(sls, i, j)
    decreases i - n
  {
    if sls[n].Addr() == sls[i].Addr() {
      j := n;
    } else {
      j := FirstExists(sls, i, n + 1);
    }
  }

  /** The entry of slot a asks for the page of slot b: as many bytes, from the same place in
      the file if there are any, with the same permission. Entries hold offsets of 32 bits. */
  predicate SameBytes(a: Slot, b: Slot) {
    && a.Read() == b.Read() && a.plan.writable == b.plan.writable
    && (a.Read() == 0 || a.Start() % WORD == b.Start())
  }

  /** The first slot at the address of slot i asks for the page of slot i. */
  ghost predicate Described(sls: seq<Slot>, i: nat)
    requires i < |sls|
  {
    exists j :: 0 <= j <= i && FirstAt(sls, i, j) && SameBytes(sls[j], sls[i])
  }

  /** The page that an access served by the entry of slot a brings in. */
  function PageServed(file: File, a: Slot): Page
    requires a.Valid() && Has(file, EntryOf(a).offset, a.Read())
  {
    Page(PageBytes(file, EntryOf(a).offset, a.Read()), a.plan.writable)
  }

  /** Served by the entry of slot a, the page at b's address is b's: the file has b's bytes,
      and they are in the page, followed by zeros. */
  ghost predicate Serves(file: File, a: Slot, b: Slot)
    requires a.Valid() && b.Valid() && Has(file, EntryOf(a).offset, a.Read())
  {
    Has(file, b.Start(), b.Read()) && PageServed(file, a) == PageOf(file, b)
  }

  lemma SameBytesServe(file: File, a: Slot, b: Slot)
    requires a.Valid() && b.Valid() && Has(file, EntryOf(a).offset, a.Read()) && SameBytes(a, b)
    ensures Serves(file, a, b)
  {
    if a.Read() == 0 {
      assert PageBytes(file, EntryOf(a).offset, 0) == PageBytes(file, b.Start(), 0);
    }
  }

  /** A file of n bytes, all zero but the one at x. */
  function OneByte(n: FileSize, x: int): File {
    seq(n, k => if k == x then 1 else 0)
  }

  /** Where the pages are the same for all contents of the file, they are described alike. */
  lemma ServeSameBytes(n: FileSize, a: Slot, b: Slot)
    requires a.Valid() && b.Valid() && (a.Read() == 0 || EntryOf(a).offset + a.Read() <= n)
    requires forall file: File :: |file| == n ==> Serves(file, a, b)
    ensures SameBytes(a, b)
  {
    hide Slot.Valid, Slot.Read, Slot.Start;
    var o := EntryOf(a).offset;
    SameIn(OneByte(n, -1), a, b, 0);
    if a.Read() > 0 {
      SameIn(OneByte(n, o + a.Read() - 1), a, b, a.Read() - 1);
    }
    if b.Read() > a.Read() {
      SameIn(OneByte(n, b.Start() + a.Read()), a, b, a.Read());
    }
  }

  /** Byte k of a page served for b is b's. */
  lemma SameIn(file: File, a: Slot, b: Slot, k: nat)
    requires a.Valid() && b.Valid() && Has(file, EntryOf(a).offset, a.Read()) && Serves(file, a, b) && k < PGSIZE
    ensures Has(file, b.Start(), b.Read()) && a.plan.writable == b.plan.writable && b.Read() <= PGSIZE
    ensures (if k < a.Read() then file[EntryOf(a).offset + k] else 0) == if k < b.Read() then file[b.Start() + k] else 0
  {
    assert PageBytes(file, EntryOf(a).offset, a.Read())[k] == PageBytes(file, b.Start(), b.Read())[k];
  }

  // ---------- what is in memory ----------

  /** The page the entry e asks for. */
  ghost predicate IsPageOf(file: File, e: VmEntry, page: Page) {
    && !e.kind.Anon? && e.readBytes <= PGSIZE && Has(file, e.offset, e.readBytes)
    && page == Page(PageBytes(file, e.offset, e.readBytes), e.writable)
  }

  /** Every page in memory is the stack page or the page its entry in vm asks for;
      the entries are those of vm, but for which pages are loaded. */
  ghost predicate Served(file: File, vm: map<Word, VmEntry>, m: Memory) {
    && (forall a :: a in vm ==> vm[a].vaddr == a)
    && m.vm.Keys == vm.Keys && (forall a :: a in vm ==> m.vm[a].(isLoaded := vm[a].isLoaded) == vm[a])
    && STACK in m.space.pages && m.space.pages[STACK] == ZeroPage()
    && (forall a :: a in m.space.pages && a != STACK ==> a in vm && IsPageOf(file, vm[a], m.space.pages[a]))
  }

  lemma TouchServes(file: File, vm: map<Word, VmEntry>, m: Memory, a: Word, table: Word -> bool)
    requires Served(file, vm, m)
    ensures Served(file, vm, Touch(file, m, a, table).0)
    ensures forall x :: x in m.space.pages ==> x in Touch(file, m, a, table).0.space.pages
    ensures Touch(file, m, a, table).1 ==> PageStart(a) in Touch(file, m, a, table).0.space.pages
  {
    hide PageBytes, Has;
    var page := PageStart(a);
    if page !in m.space.pages && page in m.vm {
      assert m.vm[page].vaddr == page && m.vm[page].offset == vm[page].offset;
    }
  }

  lemma {:induction false} TouchesServe(file: File, vm: map<Word, VmEntry>, m: Memory, addrs: seq<Word>,
      table: Word -> bool)
    requires Served(file, vm, m)
    ensures Served(file, vm, TouchAll(file, m, addrs, table).0)
    ensures TouchAll(file, m, addrs, table).1 ==>
              forall a :: a in addrs ==> PageStart(a) in TouchAll(file, m, addrs, table).0.space.pages
  {
    hide Served, Touch;
    if addrs != [] {
      var n := |addrs| - 1;
      assert addrs == addrs[..n] + [addrs[n]];
      TouchesServe(file, vm, m, addrs[..n], table);
      TouchServes(file, vm, TouchAll(file, m, addrs[..n], table).0, addrs[n], table);
    }
  }

  lemma {:induction false} EntriesAddressed(sls: seq<Slot>)
    requires AllValid(sls)
    ensures forall a :: a in InsertAll(map[], sls) ==> InsertAll(map[], sls)[a].vaddr == a
  {
    if sls != [] {
      Prefix(sls);
      EntriesAddressed(sls[..|sls| - 1]);
    }
  }

  /** After loading and any accesses, served or not, memory is as the entries say. */
  lemma LazyServes(file: File, free: nat, ps: seq<Phdr>, addrs: seq<Word>, table: Word -> bool)
    requires HeadersOk(ps, |file|) && LazyLoad(file, free, ps, table).1
    ensures var vm := LazyLoad(file, free, ps, table).0.vm;
            var (m, ok) := TouchAll(file, LazyLoad(file, free, ps, table).0, addrs, table);
            Served(file, vm, m) && (ok ==> forall a :: a in addrs ==> PageStart(a) in m.space.pages)
  {
    hide InsertAll;
    EntriesAddressed(AllSlots(ps, |file|));
    var m := LazyLoad(file, free, ps, table).0;
    TouchesServe(file, m.vm, m, addrs, table);
  }

  /** Page by page: once the page of slot i has been brought in, however many frames there
      were and whatever became of other accesses, it holds the bytes of its segment, if
      the first segment at its address asks for the same ones. */
  lemma LazyPageIsRight(file: File, free: nat, ps: seq<Phdr>, addrs: seq<Word>, i: nat, table: Word -> bool)
    requires HeadersOk(ps, |file|) && LazyLoad(file, free, ps, table).1 && i < |AllSlots(ps, |file|)|
    requires AllSlots(ps, |file|)[i].Valid() && Described(AllSlots(ps, |file|), i)
    requires AllSlots(ps, |file|)[i].Addr() != STACK
    requires var m := TouchAll(file, LazyLoad(file, free, ps, table).0, addrs, table).0;
             AllSlots(ps, |file|)[i].Addr() in m.space.pages
    ensures var sl, m := AllSlots(ps, |file|)[i], TouchAll(file, LazyLoad(file, free, ps, table).0, addrs, table).0;
            Has(file, sl.Start(), sl.Read()) && m.space.pages[sl.Addr()] == PageOf(file, sl)
  {
    hide InsertAll, TouchAll, Slot.Addr, Slot.Read, Slot.Start, Slot.Valid, PageBytes, Has, SameBytes, Described;
    LazyServes(file, free, ps, addrs, table);
    var sls := AllSlots(ps, |file|);
    var j := FirstIs(sls, i);
    if Described(sls, i) {
      DescribedBy(sls, i, j);
      SameBytesServe(file, sls[j], sls[i]);
    }
  }

  /** The slot whose entry is found at the address of slot i. */
  lemma FirstIs(sls: seq<Slot>, i: nat) returns (j: nat)
    requires AllValid(sls) && i < |sls|
    ensures j <= i && FirstAt(sls, i, j) && sls[j].Valid() && sls[j].Addr() == sls[i].Addr()
    ensures sls[i].Addr() in InsertAll(map[], sls) && InsertAll(map[], sls)[sls[i].Addr()] == EntryOf(sls[j])
  {
    hide Slot.Addr, Slot.Read, Slot.Start, Slot.Valid, InsertAll, EntryOf;
    j := FirstExists(sls, i, 0);
    assert sls[j] in sls;
    FirstInserted(sls, j);
  }

  lemma DescribedBy(sls: seq<Slot>, i: nat, j: nat)
    requires i < |sls| && j <= i && FirstAt(sls, i, j)
    ensures Described(sls, i) <==> SameBytes(sls[j], sls[i])
  {
    hide SameBytes, Slot.Addr;
    forall k | 0 <= k <= i && FirstAt(sls, i, k) ensures k == j {
    }
  }

  /** The program touches the page of slot i first, and gets that page. */
  ghost predicate GetsItsPage(file: File, free: nat, ps: seq<Phdr>, i: nat, table: Word -> bool)
    requires HeadersOk(ps, |file|) && i < |AllSlots(ps, |file|)| && AllSlots(ps, |file|)[i].Valid()
  {
    var sl := AllSlots(ps, |file|)[i];
    && Has(file, sl.Start(), sl.Read()) && 0 <= sl.Addr() < WORD
    && var (m, ok) := Touch(file, LazyLoad(file, free, ps, table).0, sl.Addr(), table);
    ok && sl.Addr() in m.space.pages && m.space.pages[sl.Addr()] == PageOf(file, sl)
  }

  /** With frames and page tables to be had, the program gets the page of slot i whatever the
      contents of a file of n bytes, if and only if the first segment at its address asks for
      the same bytes; j is that segment's slot, whose bytes such a file has. */
  lemma GetsItsPageIff(n: FileSize, free: nat, ps: seq<Phdr>, i: nat, j: nat, table: Word -> bool)
    requires HeadersOk(ps, n) && i < |AllSlots(ps, n)| && j <= i && FirstAt(AllSlots(ps, n), i, j)
    requires AllSlots(ps, n)[i].Valid() && AllSlots(ps, n)[j].Valid() && AllSlots(ps, n)[i].Addr() != STACK
    requires AllSlots(ps, n)[j].Read() == 0 || EntryOf(AllSlots(ps, n)[j]).offset + AllSlots(ps, n)[j].Read() <= n
    requires free > 1 && forall a :: table(a)
    ensures (forall file: File :: |file| == n ==> GetsItsPage(file, free, ps, i, table)) <==>
            Described(AllSlots(ps, n), i)
  {
    hide Slot.Addr, Slot.Read, Slot.Start, Slot.Valid, Serves, GetsItsPage, SameBytes, Described;
    var sls := AllSlots(ps, n);
    DescribedBy(sls, i, j);
    forall file: File | |file| == n ensures GetsItsPage(file, free, ps, i, table) <==> Serves(file, sls[j], sls[i]) {
      GetsWhatIsServed(file, free, ps, i, j, table);
    }
    if SameBytes(sls[j], sls[i]) {
      forall file: File | |file| == n ensures Serves(file, sls[j], sls[i]) {
        SameBytesServe(file, sls[j], sls[i]);
      }
    } else if forall file: File :: |file| == n ==> GetsItsPage(file, free, ps, i, table) {
      forall file: File | |file| == n ensures Serves(file, sls[j], sls[i]) {
        assert GetsItsPage(file, free, ps, i, table);
      }
      ServeSameBytes(n, sls[j], sls[i]);
    }
  }

  lemma GetsWhatIsServed(file: File, free: nat, ps: seq<Phdr>, i: nat, j: nat, table: Word -> bool)
    requires HeadersOk(ps, |file|) && i < |AllSlots(ps, |file|)| && j <= i && FirstAt(AllSlots(ps, |file|), i, j)
    requires AllSlots(ps, |file|)[i].Valid() && AllSlots(ps, |file|)[j].Valid()
    requires AllSlots(ps, |file|)[i].Addr() != STACK
    requires Has(file, EntryOf(AllSlots(ps, |file|)[j]).offset, AllSlots(ps, |file|)[j].Read())
    requires free > 1 && forall a :: table(a)
    ensures GetsItsPage(file, free, ps, i, table) <==> Serves(file, AllSlots(ps, |file|)[j], AllSlots(ps, |file|)[i])
  {
    hide InsertAll, AllSlots, Has, PageBytes;
    var sls := AllSlots(ps, |file|);
    FirstInserted(sls, j);
  }

  /** An access to a page that has an entry, of which the file has all bytes and which
      is not yet in memory, is served exactly if there is a frame and a page table. */
  lemma ServedIff(file: File, vm: map<Word, VmEntry>, m: Memory, sl: Slot, a: Word, table: Word -> bool)
    requires Served(file, vm, m) && sl.Valid() && PageStart(a) == sl.Addr() && sl.Addr() !in m.space.pages
    requires sl.Addr() in vm && vm[sl.Addr()] == EntryOf(sl) && Has(file, sl.Start(), sl.Read())
    ensures Touch(file, m, a, table).1 <==> m.space.free > 0 && table(sl.Addr())
  {
    SamePage(file, sl);
    assert m.vm[sl.Addr()].(isLoaded := vm[sl.Addr()].isLoaded) == vm[sl.Addr()];
  }

  // ---------- the entries ----------

  /** Every entry is at its address and describes one page: so many bytes of the file and zeros for the
      rest, or the stack's. It is marked as loaded exactly if its page is in memory. */
  ghost predicate EntriesFit(m: Memory) {
    forall a :: a in m.vm ==>
      var e := m.vm[a];
      && e.vaddr == a && e.vaddr % PGSIZE == 0
      && (if e.kind.Anon? then a == STACK && e.isLoaded && STACK in m.space.pages
          else e.readBytes + e.zeroBytes == PGSIZE)
      && (a != STACK ==> (e.isLoaded <==> a in m.space.pages))
  }

  lemma {:induction false} InsertsFit(sls: seq<Slot>, pages: map<Word, Page>)
    requires AllValid(sls) && forall a :: a in pages ==> a == STACK
    ensures EntriesFit(Memory(InsertAll(map[], sls), Space(pages, 0)))
  {
    if sls != [] {
      Prefix(sls);
      InsertsFit(sls[..|sls| - 1], pages);
      var sl := sls[|sls| - 1];
      assert sl in sls;
      SlotAligned(sl);
    }
  }

  lemma SlotAligned(sl: Slot)
    requires sl.Valid()
    ensures sl.Addr() % PGSIZE == 0
  {
  }

  lemma TouchKeepsEntries(file: File, m: Memory, a: Word, table: Word -> bool)
    requires EntriesFit(m)
    ensures EntriesFit(Touch(file, m, a, table).0)
  {
    hide PageBytes, Has;
  }

  lemma {:induction false} TouchesKeepEntries(file: File, m: Memory, addrs: seq<Word>, table: Word -> bool)
    requires EntriesFit(m)
    ensures EntriesFit(TouchAll(file, m, addrs, table).0)
  {
    hide Touch, EntriesFit;
    if addrs != [] {
      var n := |addrs| - 1;
      TouchesKeepEntries(file, m, addrs[..n], table);
      TouchKeepsEntries(file, TouchAll(file, m, addrs[..n], table).0, addrs[n], table);
    }
  }

  /** After loading and any accesses, served or not, the entries describe whole pages and tell which are loaded. */
  lemma EntriesAlwaysFit(file: File, free: nat, ps: seq<Phdr>, addrs: seq<Word>, table: Word -> bool)
    requires HeadersOk(ps, |file|) && LazyLoad(file, free, ps, table).1
    ensures EntriesFit(TouchAll(file, LazyLoad(file, free, ps, table).0, addrs, table).0)
  {
    hide InsertAll, AllSlots;
    InsertsFit(AllSlots(ps, |file|), map[STACK := ZeroPage()]);
    TouchesKeepEntries(file, LazyLoad(file, free, ps, table).0, addrs, table);
  }

  // ---------- frames ----------

  lemma OnePageMore(pages: map<Word, Page>, x: Word, page: Page)
    requires x !in pages
    ensures |pages[x := page]| == |pages| + 1
  {
    assert pages[x := page].Keys == pages.Keys + {x};
    assert |pages[x := page]| == |pages[x := page].Keys| && |pages| == |pages.Keys|;
  }

  lemma TouchCounts(file: File, m: Memory, a: Word, table: Word -> bool)
    ensures var m' := Touch(file, m, a, table).0; |m'.space.pages| + m'.space.free == |m.space.pages| + m.space.free
  {
    hide PageBytes, Has;
    var page := PageStart(a);
    if Touch(file, m, a, table).1 && page !in m.space.pages {
      var e := m.vm[page];
      OnePageMore(m.space.pages, e.vaddr, Touch(file, m, a, table).0.space.pages[e.vaddr]);
    }
  }

  /** Under demand paging too a page mapped is a frame less, after any accesses, served or not. */
  lemma {:induction false} LazyCount(file: File, free: nat, ps: seq<Phdr>, addrs: seq<Word>, table: Word -> bool)
    requires HeadersOk(ps, |file|)
    ensures var space := TouchAll(file, LazyLoad(file, free, ps, table).0, addrs, table).0.space;
            |space.pages| + space.free == free
  {
    hide Touch, InsertAll, AllSlots;
    if addrs == [] {
      OnePageMore(map[], STACK, ZeroPage());
      assert map[][STACK := ZeroPage()] == map[STACK := ZeroPage()];
    } else {
      var n := |addrs| - 1;
      LazyCount(file, free, ps, addrs[..n], table);
      TouchCounts(file, TouchAll(file, LazyLoad(file, free, ps, table).0, addrs[..n], table).0, addrs[n], table);
    }
  }

  // ---------- the stack page ----------

  lemma TouchKeepsPages(file: File, m: Memory, a: Word, table: Word -> bool, x: Word)
    requires x in m.space.pages
    ensures var m' := Touch(file, m, a, table).0; x in m'.space.pages && m'.space.pages[x] == m.space.pages[x]
  {
    hide PageBytes;
  }

  lemma {:induction false} TouchesKeepPages(file: File, m: Memory, addrs: seq<Word>, table: Word -> bool, x: Word)
    requires x in m.space.pages
    ensures var m' := TouchAll(file, m, addrs, table).0;
            x in m'.space.pages && m'.space.pages[x] == m.space.pages[x]
  {
    hide Touch;
    if addrs != [] {
      var n := |addrs| - 1;
      TouchesKeepPages(file, m, addrs[..n], table, x);
      TouchKeepsPages(file, TouchAll(file, m, addrs[..n], table).0, addrs[n], table, x);
    }
  }

  /** Either loader gives a program that it loads a stack: a page at the top of user memory that the
      program may write and that starts out zero, and no access to other pages changes that. */
  lemma StackIsReady(file: File, free: nat, ps: seq<Phdr>, addrs: seq<Word>, table: Word -> bool)
    requires HeadersOk(ps, |file|)
    ensures EagerLoad(file, free, ps, table).1 ==> IsStack(EagerLoad(file, free, ps, table).0.pages)
    ensures LazyLoad(file, free, ps, table).1 ==>
              IsStack(TouchAll(file, LazyLoad(file, free, ps, table).0, addrs, table).0.space.pages)
  {
    hide EagerAll, InsertAll, AllSlots;
    if LazyLoad(file, free, ps, table).1 {
      TouchesKeepPages(file, LazyLoad(file, free, ps, table).0, addrs, table, STACK);
    }
  }

  // ---------- a segment in the stack page ----------

  /** A segment may reach into the page of the stack. The lazy loader accepts it, and
      the program reads the zeros of the stack where the header asks for file bytes. */
  lemma StackHidesSegment(file: File, free: nat, table: Word -> bool)
    requires |file| > 0 && file[0] != 0 && free > 0 && forall a :: table(a)
    ensures var p := Phdr(PT_LOAD, 0, STACK, 1, 1, 0);
            && Validate(p, |file|) && HeadersOk([p], |file|)
            && !EagerLoad(file, free, [p], table).1
            && LazyLoad(file, free, [p], table).1
            && var (m, ok) := Touch(file, LazyLoad(file, free, [p], table).0, p.vaddr, table);
               ok && STACK in m.space.pages && m.space.pages[STACK].bytes[0] == 0 != file[p.offset]
  {
    var p := Phdr(PT_LOAD, 0, STACK, 1, 1, 0);
    ValidateIff(p, |file|);
    assert HeadersOk([p], |file|);
    PlanExact(p, |file|);
    var sl := SlotOfByte(p, |file|, 0);
    SlotInProgram([p], p, sl);
    assert sl in AllSlots([p], |file|) && sl.Addr() == STACK;
    EagerLoadsIff(file, free, [p], table);
  }

  // ---------- a segment whose offsets wrap ----------

  /** A header for a file of almost 2 GiB that passes every check, although its file part is
      far longer than the file. The eager loader refuses it; under demand paging the program
      reads the first bytes of the file in a page that belongs 2^32 bytes into it. */
  lemma WrongBytesTouched(file: File, free: nat, table: Word -> bool) returns (a: Word)
    requires 0x7FFF_F000 <= |file| && free > 1 && forall x :: table(x)
    ensures var p := Phdr(PT_LOAD, 0x7FFF_F000, PGSIZE, 0x8000_2000, 0x8000_2000, 0);
            && HeadersOk([p], |file|) && !EagerLoad(file, free, [p], table).1 && LazyLoad(file, free, [p], table).1
            && p.vaddr <= a && a + PGSIZE <= p.vaddr + p.filesz && p.offset + (a - p.vaddr) == WORD
            && var (m, ok) := Touch(file, LazyLoad(file, free, [p], table).0, a, table);
               ok && a in m.space.pages && m.space.pages[a].bytes == file[..PGSIZE]
  {
    hide InsertAll, Slots;
    var p := Phdr(PT_LOAD, 0x7FFF_F000, PGSIZE, 0x8000_2000, 0x8000_2000, 0);
    WrongBytesHeader(|file|);
    assert HeadersOk([p], |file|);
    PlanExact(p, |file|);
    var sl := WrappedSlot(PlanOf(p));
    SlotInProgram([p], p, sl);
    a := sl.Addr();
    var sls := AllSlots([p], |file|);
    assert sl in sls && !Has(file, sl.Start(), sl.Read());
    EagerLoadsIff(file, free, [p], table);
    OneSegment(p, |file|);
    InsertsAll(sls);
    assert PageBytes(file, 0, PGSIZE) == file[..PGSIZE];
  }

  lemma OneSegment(p: Phdr, fileLength: FileSize)
    requires HeadersOk([p], fileLength) && p.kind == PT_LOAD
    ensures AllSlots([p], fileLength) == SlotsOf(PlanOf(p)) && DistinctPages(AllSlots([p], fileLength))
  {
    assert [p][..0] == [];
    assert Slots([p]) == [] + SlotsOf(PlanOf(p));
  }
}
