/**
 The two loaders and the page-fault handler, updating the page tables, the frame
 pool, the file position and page buffers in place.
 */
module Loaders {
  import opened Segments
  import opened Paging
  import opened Loading

  class Process {
    const file: File
    const table: Word -> bool  // whether pagedir_set_page finds memory for its table
    var pos: nat               // position in the open file
    var vm: map<Word, VmEntry>
    var pages: map<Word, Page> // the page directory, with what the mapped frames hold
    var free: nat              // frames in the user pool

    constructor (file: File, free: nat, table: Word -> bool)
      ensures this.file == file && this.table == table
      ensures vm == map[] && Now() == Space(map[], free)
    {
      this.file, this.table := file, table;
      this.pos, this.vm, this.pages, this.free := 0, map[], map[], free;
    }

    function Now(): Space
      reads this
    {
      Space(pages, free)
    }

    // ---------- frames and files ----------

    /** palloc_get_page (PAL_USER): a frame with unspecified contents. */
    method GetPage() returns (frame: array?<Byte>)
      modifies `free
      ensures old(free) == 0 ==> frame == null && free == 0
      ensures old(free) > 0 ==> frame != null && fresh(frame) && frame.Length == PGSIZE && free == old(free) - 1
    {
      if free == 0 {
        return null;
      }
      free := free - 1;
      frame := new Byte[PGSIZE];
    }

    /** palloc_free_page. */
    method FreePage()
      modifies `free
      ensures free == old(free) + 1
    {
      free := free + 1;
    }

    /** file_read: as many bytes as there are, up to size. */
    method Read(frame: array<Byte>, size: nat) returns (n: nat)
      requires size <= frame.Length
      modifies `pos, frame
      ensures n <= size && pos == old(pos) + n && (n == size <==> Has(file, old(pos), size))
      ensures n == size ==> forall j :: 0 <= j < size ==> old(pos) + j < |file| && frame[j] == file[old(pos) + j]
    {
      n := 0;
      while n < size && pos < |file|
        invariant n <= size && pos == old(pos) + n && (n > 0 ==> pos <= |file|)
        invariant forall j :: 0 <= j < n ==> frame[j] == file[old(pos) + j]
      {
        frame[n] := file[pos];
        n, pos := n + 1, pos + 1;
      }
    }

    /** memset to zero. */
    method Clear(frame: array<Byte>, start: nat, size: nat)
      requires start + size <= frame.Length
      modifies frame
      ensures forall j :: 0 <= j < frame.Length ==> frame[j] == if start <= j < start + size then 0 else old(frame[j])
    {
      var i := start;
      while i < start + size
        invariant start <= i <= start + size
        invariant forall j :: 0 <= j < frame.Length ==> frame[j] == if start <= j < i then 0 else old(frame[j])
      {
        frame[i] := 0;
        i := i + 1;
      }
    }

    /** Read read bytes at the file position and clear the rest of the page. */
    method Fill(frame: array<Byte>, read: nat, zero: nat) returns (ok: bool)
      requires frame.Length == PGSIZE == read + zero
      modifies `pos, frame
      ensures ok <==> Has(file, old(pos), read)
      ensures ok ==> frame[..] == PageBytes(file, old(pos), read) && pos == old(pos) + read
    {
      var n := Read(frame, read);
      ok := n == read;
      if ok {
        Clear(frame, read, zero);
        assert frame[..] == PageBytes(file, old(pos), read);
      }
    }

    // ---------- page.c ----------

    method InsertVme(e: VmEntry) returns (inserted: bool)
      modifies `vm
      ensures inserted <==> e.vaddr !in old(vm)
      ensures vm == InsertOne(old(vm), e)
    {
      inserted := e.vaddr !in vm;
      if inserted {
        vm := vm[e.vaddr := e];
      }
    }

    /** find_vme: the entry of the page that holds vaddr, if there is one. */
    method FindVme(vaddr: Word) returns (found: bool, e: VmEntry)
      ensures found <==> PageStart(vaddr) in vm
      ensures found ==> e == vm[PageStart(vaddr)]
    {
      found := PageStart(vaddr) in vm;
      e := if found then vm[PageStart(vaddr)] else StackEntry();
    }

    method LoadFile(frame: array<Byte>, e: VmEntry) returns (ok: bool)
      requires frame.Length == PGSIZE == e.readBytes + e.zeroBytes
      modifies `pos, frame
      ensures ok <==> Has(file, e.offset, e.readBytes)
      ensures ok ==> frame[..] == PageBytes(file, e.offset, e.readBytes)
    {
      pos := e.offset;
      ok := Fill(frame, e.readBytes, e.zeroBytes);
    }

    // ---------- process.c ----------

    method InstallPage(upage: Word, frame: array<Byte>, writable: bool) returns (ok: bool)
      modifies `pages
      ensures ok <==> upage !in old(pages) && table(upage)
      ensures pages == if ok then old(pages)[upage := Page(frame[..], writable)] else old(pages)
    {
      ok := upage !in pages && table(upage);
      if ok {
        pages := pages[upage := Page(frame[..], writable)];
      }
    }

    /** What a fault on a stack entry does: a frame, with whatever it held, is mapped if
        there is one and the address has no mapping. */
    ghost predicate MapsFrame(s: Space, s': Space, e: VmEntry) {
      if s.free > 0 && e.vaddr !in s.pages && table(e.vaddr) then
        && s'.free == s.free - 1 && s'.pages.Keys == s.pages.Keys + {e.vaddr}
        && (forall a :: a in s.pages ==> s'.pages[a] == s.pages[a])
        && |s'.pages[e.vaddr].bytes| == PGSIZE && s'.pages[e.vaddr].writable == e.writable
      else s' == s
    }

    /** handle_mm_fault. The case of a page of the executable falls through and
        loads the page twice; a stack page is mapped as it is and reported as a failure. */
    method HandleMmFault(e: VmEntry) returns (success: bool)
      requires e.vaddr in vm && vm[e.vaddr] == e && e.readBytes + e.zeroBytes == PGSIZE
      modifies `vm, `pages, `free, `pos
      ensures !e.kind.Anon? ==> (Now(), success) == FaultOne(file, old(Now()), e, table)
      ensures e.kind.Anon? ==> !success && MapsFrame(old(Now()), Now(), e)
      ensures vm == old(vm) || vm == old(vm)[e.vaddr := e.(isLoaded := true)]
      ensures success ==> vm == old(vm)[e.vaddr := e.(isLoaded := true)]
      ensures !success && !e.kind.Anon? ==> vm == old(vm)
      ensures e.kind.Anon? && Now() == old(Now()) ==> vm == old(vm)
    {
      success := false;
      var kaddr := GetPage();
      if kaddr == null {
        return;
      }
      if e.kind == Bin {
        success := LoadFile(kaddr, e);
        if !success {
          FreePage();
          return;
        }
      }
      if e.kind == Bin || e.kind == Mapped {
        success := LoadFile(kaddr, e);
        if !success {
          FreePage();
          return;
        }
      }
      var installed := InstallPage(e.vaddr, kaddr, e.writable);
      if !installed {
        FreePage();
        return false;
      }
      vm := vm[e.vaddr := e.(isLoaded := true)];
    }

    /** load_segment of project 4: an entry for every page. */
    method LoadSegmentLazily(pl: Plan)
      requires Whole(pl)
      modifies `vm
      ensures AllValid(SlotsOf(pl)) && vm == InsertAll(old(vm), SlotsOf(pl))
    {
      hide Slot.Valid, Slot.Addr, Slot.Read, Slot.Start, InsertOne, EntryOf, Consumed, Whole, Add, Sub, SlotsOf;
      var ofs: Word, upage: Word := pl.ofs, pl.upage;
      var readBytes: Word, zeroBytes: Word := pl.readBytes, pl.zeroBytes;
      ghost var k, sls := 0, SlotsOf(pl);
      WholeSlots(pl);
      ConsumedNone(pl);
      while readBytes > 0 || zeroBytes > 0
        invariant k <= |sls| && Consumed(pl, k, ofs, upage, readBytes, zeroBytes)
        invariant AllValid(sls[..k]) && vm == InsertAll(old(vm), sls[..k])
        decreases |sls| - k
      {
        ConsumedNext(pl, k, ofs, upage, readBytes, zeroBytes);
        var pageReadBytes: Word := if readBytes < PGSIZE then readBytes else PGSIZE;
        var pageZeroBytes: Word := PGSIZE - pageReadBytes;
        var _ := InsertVme(VmEntry(Bin, upage, pl.writable, false, ofs, pageReadBytes, pageZeroBytes));
        PrefixNext(sls, k);
        readBytes := Sub(readBytes, pageReadBytes);
        zeroBytes := Sub(zeroBytes, pageZeroBytes);
        ofs := Add(ofs, pageReadBytes);
        upage := Add(upage, PGSIZE);
        k := k + 1;
      }
      ConsumedAll(pl, k, ofs, upage, readBytes, zeroBytes);
      assert sls[..k] == sls;
    }

    /** The loop body of project 3's load_segment. */
    method LoadPage(upage: Word, pageReadBytes: Word, pageZeroBytes: Word, writable: bool, ghost sl: Slot)
        returns (ok: bool)
      requires sl.Valid() && upage == sl.Addr() && pos == sl.Start() && writable == sl.plan.writable
      requires pageReadBytes == sl.Read() && pageZeroBytes == PGSIZE - sl.Read()
      modifies `pages, `free, `pos
      ensures (Now(), ok) == EagerOne(file, old(Now()), sl, table)
      ensures ok ==> pos == old(pos) + sl.Read()
    {
      var kpage := GetPage();
      if kpage == null {
        return false;
      }
      ok := Fill(kpage, pageReadBytes, pageZeroBytes);
      if !ok {
        FreePage();
        return;
      }
      ok := InstallPage(upage, kpage, writable);
      if !ok {
        FreePage();
        return;
      }
    }

    /** load_segment of project 3: every page at once, read in file order. */
    method LoadSegmentEagerly(pl: Plan) returns (ok: bool)
      requires Whole(pl)
      modifies `pages, `free, `pos
      ensures AllValid(SlotsOf(pl)) && (Now(), ok) == EagerAll(file, old(Now()), SlotsOf(pl), table)
    {
      hide Slot.Valid, Slot.Addr, Slot.Read, Slot.Start, EagerOne, Consumed, Whole, Add, Sub, SlotsOf, Has;
      var upage: Word, readBytes: Word, zeroBytes: Word := pl.upage, pl.readBytes, pl.zeroBytes;
      ghost var k, sls, ofs: Word := 0, SlotsOf(pl), pl.ofs;
      WholeSlots(pl);
      ConsumedNone(pl);
      pos := pl.ofs;
      while readBytes > 0 || zeroBytes > 0
        invariant k <= |sls| && Consumed(pl, k, ofs, upage, readBytes, zeroBytes)
        invariant pos == pl.ofs + Min(k * PGSIZE, pl.readBytes)
        invariant AllValid(sls[..k]) && (Now(), true) == EagerAll(file, old(Now()), sls[..k], table)
        decreases |sls| - k
      {
        ConsumedNext(pl, k, ofs, upage, readBytes, zeroBytes);
        StartsOf(pl, k);
        PrefixNext(sls, k);
        EagerStops(file, old(Now()), sls, k + 1, table);
        var pageReadBytes: Word := if readBytes < PGSIZE then readBytes else PGSIZE;
        var pageZeroBytes: Word := PGSIZE - pageReadBytes;
        ok := LoadPage(upage, pageReadBytes, pageZeroBytes, pl.writable, Slot(pl, k));
        if !ok {
          return;
        }
        readBytes := Sub(readBytes, pageReadBytes);
        zeroBytes := Sub(zeroBytes, pageZeroBytes);
        upage := Add(upage, PGSIZE);
        ofs := Add(ofs, pageReadBytes);
        k := k + 1;
      }
      ConsumedAll(pl, k, ofs, upage, readBytes, zeroBytes);
      assert sls[..k] == sls;
      ok := true;
    }

    /** setup_stack of project 3. */
    method SetupStackEagerly() returns (ok: bool)
      modifies `pages, `free
      ensures ok <==> old(free) > 0 && STACK !in old(pages) && table(STACK)
      ensures Now() == if ok then Space(old(pages)[STACK := ZeroPage()], old(free) - 1) else old(Now())
      ensures ok ==> IsStack(pages)
    {
      var kpage := GetPage();
      if kpage == null {
        return false;
      }
      Clear(kpage, 0, PGSIZE);
      assert kpage[..] == ZeroPage().bytes;
      ok := InstallPage(STACK, kpage, true);
      if !ok {
        FreePage();
      }
    }

    /** setup_stack of project 4, which also records an entry and ignores whether
        the address had one. */
    method SetupStackLazily() returns (ok: bool)
      modifies `pages, `free, `vm
      ensures ok <==> old(free) > 0 && STACK !in old(pages) && table(STACK)
      ensures Now() == if ok then Space(old(pages)[STACK := ZeroPage()], old(free) - 1) else old(Now())
      ensures ok ==> IsStack(pages)
      ensures vm == if ok then InsertOne(old(vm), StackEntry()) else old(vm)
    {
      ok := SetupStackEagerly();
      if ok {
        var _ := InsertVme(StackEntry());
      }
    }

    /** load of project 3, given the program headers. */
    method LoadEagerly(ps: seq<Phdr>) returns (ok: bool)
      requires pages == map[]
      modifies `pages, `free, `pos
      ensures ok <==> HeadersOk(ps, |file|) && EagerLoad(file, old(free), ps, table).1
      ensures ok ==> Now() == EagerLoad(file, old(free), ps, table).0
    {
      hide EagerAll, SlotsOf, PlanOf, Slots;
      var i := 0;
      SlotsNone(ps, |file|);
      EagerNone(file, Now(), table);
      while i < |ps|
        invariant i <= |ps| && HeadersOk(ps[..i], |file|)
        invariant (Now(), true) == EagerAll(file, old(Now()), AllSlots(ps[..i], |file|), table)
      {
        var p := ps[i];
        assert p in ps;
        if p.kind == PT_DYNAMIC || p.kind == PT_INTERP || p.kind == PT_SHLIB {
          return false;
        } else if p.kind == PT_LOAD {
          if !Validate(p, |file|) {
            return false;
          }
          PlanExact(p, |file|);
          SlotsNext(ps, i, |file|);
          ok := LoadSegmentEagerly(PlanOf(p));
          EagerConcat(file, old(Now()), AllSlots(ps[..i], |file|), SlotsOf(PlanOf(p)), table);
          if !ok {
            EagerFails(file, old(Now()), ps, i + 1, table);
            return;
          }
        } else {
          SlotsNext(ps, i, |file|);
        }
        i := i + 1;
      }
      assert ps[..i] == ps;
      ok := SetupStackEagerly();
    }

    /** load of project 4, given the program headers. */
    method LoadLazily(ps: seq<Phdr>) returns (ok: bool)
      requires pages == map[] && vm == map[]
      modifies `pages, `free, `vm
      ensures ok <==> HeadersOk(ps, |file|) && LazyLoad(file, old(free), ps, table).1
      ensures ok ==> Memory(vm, Now()) == LazyLoad(file, old(free), ps, table).0
    {
      hide InsertAll, SlotsOf, PlanOf, Slots;
      var i := 0;
      SlotsNone(ps, |file|);
      InsertNone();
      while i < |ps|
        invariant i <= |ps| && HeadersOk(ps[..i], |file|)
        invariant vm == InsertAll(map[], AllSlots(ps[..i], |file|))
        invariant Now() == old(Now())
      {
        var p := ps[i];
        assert p in ps;
        if p.kind == PT_DYNAMIC || p.kind == PT_INTERP || p.kind == PT_SHLIB {
          return false;
        } else if p.kind == PT_LOAD {
          if !Validate(p, |file|) {
            return false;
          }
          PlanExact(p, |file|);
          SlotsNext(ps, i, |file|);
          LoadSegmentLazily(PlanOf(p));
          InsertConcat(map[], AllSlots(ps[..i], |file|), SlotsOf(PlanOf(p)));
        } else {
          SlotsNext(ps, i, |file|);
        }
        i := i + 1;
      }
      assert ps[..i] == ps;
      ok := SetupStackLazily();
    }

    /** page_fault for a page that is not present and has an entry. */
    method PageFault(addr: Word) returns (served: bool)
      requires PageStart(addr) in vm && PageStart(addr) !in pages
      requires var e := vm[PageStart(addr)]; e.vaddr == PageStart(addr) && e.readBytes + e.zeroBytes == PGSIZE
      modifies `vm, `pages, `free, `pos
      ensures !old(vm)[PageStart(addr)].kind.Anon? ==>
                (Memory(vm, Now()), served) == Touch(file, old(Memory(vm, Now())), addr, table)
      ensures old(vm)[PageStart(addr)].kind.Anon? ==>
                !served && MapsFrame(old(Now()), Now(), old(vm)[PageStart(addr)])
    {
      var found, e := FindVme(addr);
      assert found;
      served := HandleMmFault(e);
    }
  }

  // ---------- lemmas about the loops ----------

  lemma WholeSlots(pl: Plan)
    requires Whole(pl)
    ensures AllValid(SlotsOf(pl))
  {
  }

  /** The loop variables of load_segment after k pages, with nothing wrapped but the offset. */
  ghost predicate Consumed(pl: Plan, k: nat, ofs: Word, upage: Word, readBytes: Word, zeroBytes: Word) {
    && k * PGSIZE <= pl.readBytes + pl.zeroBytes
    && upage == pl.upage + k * PGSIZE
    && ofs == (pl.ofs + Min(k * PGSIZE, pl.readBytes)) % WORD
    && readBytes == pl.readBytes - Min(k * PGSIZE, pl.readBytes)
    && readBytes + zeroBytes == pl.readBytes + pl.zeroBytes - k * PGSIZE
  }

  lemma ConsumedNone(pl: Plan)
    requires Whole(pl)
    ensures Consumed(pl, 0, pl.ofs, pl.upage, pl.readBytes, pl.zeroBytes)
  {
  }

  lemma StartsOf(pl: Plan, k: nat)
    requires Whole(pl)
    ensures Slot(pl, k).Start() == pl.ofs + Min(k * PGSIZE, pl.readBytes)
    ensures Slot(pl, k).Start() + Slot(pl, k).Read() == pl.ofs + Min((k + 1) * PGSIZE, pl.readBytes)
  {
    assert (k + 1) * PGSIZE == k * PGSIZE + PGSIZE;
  }

  lemma NextSlot(pl: Plan, k: nat, ofs: Word, upage: Word, readBytes: Word, zeroBytes: Word)
    requires Whole(pl) && Consumed(pl, k, ofs, upage, readBytes, zeroBytes) && (readBytes > 0 || zeroBytes > 0)
    ensures readBytes + zeroBytes >= PGSIZE
    ensures k < |SlotsOf(pl)| && SlotsOf(pl)[k] == Slot(pl, k) && Slot(pl, k).Valid() && upage == Slot(pl, k).Addr()
    ensures Slot(pl, k).Read() == if readBytes < PGSIZE then readBytes else PGSIZE
  {
    PageLeft(pl.readBytes + pl.zeroBytes, k);
    assert (k + 1) * PGSIZE == k * PGSIZE + PGSIZE;
  }

  /** Each iteration takes exactly one page and never more than is left. */
  lemma ConsumedNext(pl: Plan, k: nat, ofs: Word, upage: Word, readBytes: Word, zeroBytes: Word)
    requires Whole(pl) && Consumed(pl, k, ofs, upage, readBytes, zeroBytes) && (readBytes > 0 || zeroBytes > 0)
    ensures k < |SlotsOf(pl)| && SlotsOf(pl)[k] == Slot(pl, k) && Slot(pl, k).Valid() && upage == Slot(pl, k).Addr()
    ensures var read := if readBytes < PGSIZE then readBytes else PGSIZE;
            && read == Slot(pl, k).Read() && PGSIZE - read <= zeroBytes
            && EntryOf(Slot(pl, k)) == VmEntry(Bin, upage, pl.writable, false, ofs, read, PGSIZE - read)
            && Consumed(pl, k + 1, Add(ofs, read), Add(upage, PGSIZE), Sub(readBytes, read), Sub(zeroBytes,
                PGSIZE - read))
  {
    hide SlotsOf, Slot.Valid, Slot.Read, Slot.Addr, EntryOf, Whole, Consumed, Add, Sub;
    NextSlot(pl, k, ofs, upage, readBytes, zeroBytes);
    EntryNow(pl, k, ofs, upage, readBytes, zeroBytes);
    ConsumedMore(pl, k, ofs, upage, readBytes, zeroBytes, if readBytes < PGSIZE then readBytes else PGSIZE);
  }

  /** The updates at the end of an iteration: only the offset can wrap. */
  lemma ConsumedMore(pl: Plan, k: nat, ofs: Word, upage: Word, readBytes: Word, zeroBytes: Word, read: Word)
    requires Whole(pl) && Consumed(pl, k, ofs, upage, readBytes, zeroBytes) && readBytes + zeroBytes >= PGSIZE
    requires read == if readBytes < PGSIZE then readBytes else PGSIZE
    ensures PGSIZE - read <= zeroBytes
    ensures Consumed(pl, k + 1, Add(ofs, read), Add(upage, PGSIZE), Sub(readBytes, read), Sub(zeroBytes, PGSIZE - read))
  {
    hide Whole, Add, Sub;
    MinNext(k, pl.readBytes);
    AddOffset(pl.ofs + Min(k * PGSIZE, pl.readBytes), ofs, read);
    AddPage(pl, upage, k);
    SubExact(readBytes, read);
    SubExact(zeroBytes, PGSIZE - read);
  }

  lemma SubExact(a: Word, b: Word)
    requires b <= a
    ensures Sub(a, b) == a - b
  {
  }

  lemma EntryNow(pl: Plan, k: nat, ofs: Word, upage: Word, readBytes: Word, zeroBytes: Word)
    requires Consumed(pl, k, ofs, upage, readBytes, zeroBytes) && Slot(pl, k).Valid()
    ensures var read := Slot(pl, k).Read();
            EntryOf(Slot(pl, k)) == VmEntry(Bin, upage, pl.writable, false, ofs, read, PGSIZE - read)
  {
  }

  lemma MinNext(k: nat, n: nat)
    ensures (k + 1) * PGSIZE == k * PGSIZE + PGSIZE
    ensures Min((k + 1) * PGSIZE, n) == Min(k * PGSIZE, n) + Min(PGSIZE, n - Min(k * PGSIZE, n))
  {
  }

  lemma AddPage(pl: Plan, upage: Word, k: nat)
    requires Whole(pl) && (k + 1) * PGSIZE <= pl.readBytes + pl.zeroBytes && upage == pl.upage + k * PGSIZE
    ensures Add(upage, PGSIZE) == pl.upage + (k + 1) * PGSIZE
  {
    MinNext(k, 0);
  }

  lemma AddOffset(x: nat, ofs: Word, y: Word)
    requires y <= PGSIZE && ofs == x % WORD
    ensures Add(ofs, y) == (x + y) % WORD
  {
    assert x == x / WORD * WORD + x % WORD;
  }

  lemma PageLeft(total: nat, k: nat)
    requires total % PGSIZE == 0 && k * PGSIZE < total
    ensures total - k * PGSIZE >= PGSIZE && k < total / PGSIZE
  {
    DropPages(total, k);
  }

  lemma DropPages(total: nat, k: nat)
    requires total % PGSIZE == 0 && k * PGSIZE <= total
    ensures (total - k * PGSIZE) % PGSIZE == 0
  {
    assert total == total / PGSIZE * PGSIZE;
    assert total - k * PGSIZE == (total / PGSIZE - k) * PGSIZE;
  }

  lemma ConsumedAll(pl: Plan, k: nat, ofs: Word, upage: Word, readBytes: Word, zeroBytes: Word)
    requires Whole(pl) && Consumed(pl, k, ofs, upage, readBytes, zeroBytes) && readBytes == zeroBytes == 0
    ensures k == |SlotsOf(pl)|
  {
  }

  lemma PrefixNext(sls: seq<Slot>, k: nat)
    requires k < |sls| && AllValid(sls)
    ensures |sls[..k + 1]| == k + 1 && sls[..k + 1][..k] == sls[..k] && sls[..k + 1][k] == sls[k]
    ensures AllValid(sls[..k]) && AllValid(sls[..k + 1])
  {
  }

  /** Once a page fails the eager loader stops. */
  lemma {:induction false} EagerStops(file: File, s: Space, sls: seq<Slot>, k: nat, table: Word -> bool)
    requires AllValid(sls) && k <= |sls| && AllValid(sls[..k])
    ensures !EagerAll(file, s, sls[..k], table).1
        ==> EagerAll(file, s, sls, table) == EagerAll(file, s, sls[..k], table)
    decreases |sls|
  {
    if k == |sls| {
      assert sls[..k] == sls;
    } else {
      var n := |sls| - 1;
      assert sls[..n][..k] == sls[..k];
      EagerStops(file, s, sls[..n], k, table);
    }
  }

  lemma SlotsNone(ps: seq<Phdr>, fileLength: FileSize)
    ensures HeadersOk(ps[..0], fileLength) && AllSlots(ps[..0], fileLength) == []
  {
  }

  lemma EagerNone(file: File, s: Space, table: Word -> bool)
    ensures EagerAll(file, s, [], table) == (s, true)
  {
  }

  lemma InsertNone()
    ensures InsertAll(map[], []) == map[]
  {
  }

  /** One header more. */
  lemma SlotsNext(ps: seq<Phdr>, i: nat, fileLength: FileSize)
    requires i < |ps| && HeadersOk(ps[..i], fileLength)
    requires var p := ps[i];
             && p.kind != PT_DYNAMIC && p.kind != PT_INTERP && p.kind != PT_SHLIB
             && (p.kind == PT_LOAD ==> Validate(p, fileLength))
    ensures HeadersOk(ps[..i + 1], fileLength)
    ensures ps[i].kind == PT_LOAD ==>
              AllSlots(ps[..i + 1], fileLength) == AllSlots(ps[..i], fileLength) + SlotsOf(PlanOf(ps[i]))
    ensures ps[i].kind != PT_LOAD ==> AllSlots(ps[..i + 1], fileLength) == AllSlots(ps[..i], fileLength)
  {
    assert ps[..i + 1] == ps[..i] + [ps[i]];
    assert ps[..i + 1][..i] == ps[..i];
  }

  lemma {:induction false} EagerConcat(file: File, s: Space, xs: seq<Slot>, ys: seq<Slot>, table: Word -> bool)
    requires AllValid(xs) && AllValid(ys) && EagerAll(file, s, xs, table).1
    ensures AllValid(xs + ys)
    ensures EagerAll(file, s, xs + ys, table) == EagerAll(file, EagerAll(file, s, xs, table).0, ys, table)
  {
    hide EagerOne, Slot.Valid;
    if ys == [] {
      assert xs + ys == xs;
    } else {
      var n := |ys| - 1;
      assert ys == ys[..n] + [ys[n]];
      assert (xs + ys)[..|xs + ys| - 1] == xs + ys[..n];
      EagerConcat(file, s, xs, ys[..n], table);
    }
  }

  lemma {:induction false} InsertConcat(vm: map<Word, VmEntry>, xs: seq<Slot>, ys: seq<Slot>)
    requires AllValid(xs) && AllValid(ys)
    ensures AllValid(xs + ys) && InsertAll(vm, xs + ys) == InsertAll(InsertAll(vm, xs), ys)
  {
    hide InsertOne, EntryOf, Slot.Valid;
    if ys == [] {
      assert xs + ys == xs;
    } else {
      var n := |ys| - 1;
      assert ys == ys[..n] + [ys[n]];
      assert (xs + ys)[..|xs + ys| - 1] == xs + ys[..n];
      InsertConcat(vm, xs, ys[..n]);
    }
  }

  lemma {:induction false} SlotsPrefix(ps: seq<Phdr>, i: nat)
    requires i <= |ps|
    ensures |Slots(ps[..i])| <= |Slots(ps)| && Slots(ps)[..|Slots(ps[..i])|] == Slots(ps[..i])
  {
    if i == |ps| {
      assert ps[..i] == ps;
    } else {
      var n := |ps| - 1;
      SlotsPrefix(ps[..n], i);
      assert ps[..n][..i] == ps[..i];
    }
  }

  /** Once a segment fails the program fails. */
  lemma EagerFails(file: File, s: Space, ps: seq<Phdr>, i: nat, table: Word -> bool)
    requires i <= |ps| && HeadersOk(ps[..i], |file|)
    requires !EagerAll(file, s, AllSlots(ps[..i], |file|), table).1
    ensures HeadersOk(ps, |file|) ==> !EagerAll(file, s, AllSlots(ps, |file|), table).1
  {
    if HeadersOk(ps, |file|) {
      SlotsPrefix(ps, i);
      EagerStops(file, s, AllSlots(ps, |file|), |Slots(ps[..i])|, table);
    }
  }
}
