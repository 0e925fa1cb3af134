/**
 What the two loaders are meant to do with the pages of an executable: the eager
 loader reads every page when the program starts, the lazy one records where
 each page comes from and reads it when the program first touches it.
 */
module Paging {
  import opened Segments

  /** The contents of an executable file. */
  type File = f: seq<Byte> | |f| < WORD / 2 witness []

  datatype Kind = Bin | Mapped | Anon

  datatype VmEntry = VmEntry(kind: Kind, vaddr: Word, writable: bool, isLoaded: bool,
                             offset: Word, readBytes: Word, zeroBytes: Word)

  /** A user page in memory. */
  datatype Page = Page(bytes: seq<Byte>, writable: bool)

  /** The mapped user pages and the number of free frames in the user pool. */
  datatype Space = Space(pages: map<Word, Page>, free: nat)

  function Min(a: int, b: int): int {
    if a < b then a else b
  }

  // ---------- the pages of a segment ----------

  /** The k-th page of a segment. */
  datatype Slot = Slot(plan: Plan, k: nat) {
    ghost predicate Valid() {
      Whole(plan) && (k + 1) * PGSIZE <= plan.readBytes + plan.zeroBytes
    }

    function Addr(): int {
      plan.upage + k * PGSIZE
    }

    /** How much of the page comes from the file. */
    function Read(): nat {
      if plan.readBytes <= k * PGSIZE then 0 else Min(PGSIZE, plan.readBytes - k * PGSIZE)
    }

    /** Where in the file that is. */
    function Start(): nat
      requires 0 <= plan.ofs
    {
      plan.ofs + Min(k * PGSIZE, plan.readBytes)
    }
  }

  function SlotsOf(pl: Plan): seq<Slot> {
    seq((pl.readBytes + pl.zeroBytes) / PGSIZE, k requires k >= 0 => Slot(pl, k))
  }

  /** The bytes of a page: read from start, then zeros. */
  function PageBytes(file: File, start: nat, read: nat): seq<Byte>
    requires read <= PGSIZE && (read == 0 || start + read <= |file|)
  {
    seq(PGSIZE, j requires 0 <= j < PGSIZE => if j < read then file[start + j] else 0)
  }

  /** The file has the bytes from start on. */
  predicate Has(file: File, start: int, read: int) {
    read == 0 || start + read <= |file|
  }

  // ---------- the eager loader ----------

  /** One page: a frame, its bytes, and a mapping where there was none. */
  function EagerOne(file: File, s: Space, sl: Slot, table: Word -> bool): (Space, bool)
    requires sl.Valid()
  {
    if s.free > 0 && Has(file, sl.Start(), sl.Read()) && sl.Addr() !in s.pages && table(sl.Addr()) then
      (Space(s.pages[sl.Addr() := Page(PageBytes(file, sl.Start(), sl.Read()), sl.plan.writable)], s.free - 1), true)
    else (s, false)
  }

  ghost predicate AllValid(sls: seq<Slot>) {
    forall sl :: sl in sls ==> sl.Valid()
  }

  /** Page after page until one fails. */
  function EagerAll(file: File, s: Space, sls: seq<Slot>, table: Word -> bool): (Space, bool)
    requires AllValid(sls)
  {
    if sls == [] then (s, true)
    else
      var (s', ok) := EagerAll(file, s, sls[..|sls| - 1], table);
      assert sls[|sls| - 1] in sls;
      if ok then EagerOne(file, s', sls[|sls| - 1], table) else (s', false)
  }

  // ---------- the lazy loader ----------

  function EntryOf(sl: Slot): VmEntry
    requires sl.Valid()
  {
    VmEntry(Bin, sl.Addr(), sl.plan.writable, false, sl.Start() % WORD, sl.Read(), PGSIZE - sl.Read())
  }

  /** insert_vme, with its result ignored: an address that has an entry keeps it. */
  function InsertOne(vm: map<Word, VmEntry>, e: VmEntry): map<Word, VmEntry> {
    if e.vaddr in vm then vm else vm[e.vaddr := e]
  }

  function InsertAll(vm: map<Word, VmEntry>, sls: seq<Slot>): map<Word, VmEntry>
    requires AllValid(sls)
  {
    if sls == [] then vm
    else
      assert sls[|sls| - 1] in sls;
      InsertOne(InsertAll(vm, sls[..|sls| - 1]), EntryOf(sls[|sls| - 1]))
  }

  /** A page fault at an address inside the page of e, as handle_mm_fault serves it. */
  function FaultOne(file: File, s: Space, e: VmEntry, table: Word -> bool): (Space, bool)
    requires e.readBytes <= PGSIZE && !e.kind.Anon?
  {
    if s.free > 0 && Has(file, e.offset, e.readBytes) && e.vaddr !in s.pages && table(e.vaddr) then
      (Space(s.pages[e.vaddr := Page(PageBytes(file, e.offset, e.readBytes), e.writable)], s.free - 1), true)
    else (s, false)
  }

  // ---------- program headers ----------

  /** The headers load accepts. */
  ghost predicate HeadersOk(ps: seq<Phdr>, fileLength: FileSize) {
    forall p :: p in ps ==>
      && p.kind != PT_DYNAMIC && p.kind != PT_INTERP && p.kind != PT_SHLIB
      && (p.kind == PT_LOAD ==> Validate(p, fileLength))
  }

  /** The pages of all loadable segments, in the order the loaders take them. */
  function Slots(ps: seq<Phdr>): seq<Slot> {
    if ps == [] then []
    else
      var p := ps[|ps| - 1];
      Slots(ps[..|ps| - 1]) + if p.kind == PT_LOAD then SlotsOf(PlanOf(p)) else []
  }

  const STACK: Word := PHYS_BASE - PGSIZE

  function ZeroPage(): Page {
    Page(seq(PGSIZE, j => 0), true)
  }

  /** The top page of user memory is there, writable and all zero. */
  ghost predicate IsStack(pages: map<Word, Page>) {
    var top := PHYS_BASE - PGSIZE;
    && top in pages && pages[top].writable && |pages[top].bytes| == PGSIZE
    && forall j :: 0 <= j < PGSIZE ==> pages[top].bytes[j] == 0
  }

  // ---------- whole programs ----------

  function AllSlots(ps: seq<Phdr>, fileLength: FileSize): (sls: seq<Slot>)
    requires HeadersOk(ps, fileLength)
    ensures AllValid(sls)
  {
    SlotsValid(ps, fileLength);
    Slots(ps)
  }

  /** load with the eager load_segment, from an empty address space: the pages of
      every segment, then the stack page. */
  function EagerLoad(file: File, free: nat, ps: seq<Phdr>, table: Word -> bool): (Space, bool)
    requires HeadersOk(ps, |file|)
  {
    var (s, ok) := EagerAll(file, Space(map[], free), AllSlots(ps, |file|), table);
    if ok && s.free > 0 && STACK !in s.pages && table(STACK) then
      (Space(s.pages[STACK := ZeroPage()], s.free - 1), true)
    else (s, false)
  }

  /** The address space of a process under demand paging. */
  datatype Memory = Memory(vm: map<Word, VmEntry>, space: Space)

  function StackEntry(): VmEntry {
    VmEntry(Anon, STACK, true, true, 0, 0, 0)
  }

  /** load with the lazy load_segment: an entry for every page, and the stack page. */
  function LazyLoad(file: File, free: nat, ps: seq<Phdr>, table: Word -> bool): (Memory, bool)
    requires HeadersOk(ps, |file|)
  {
    var vm := InsertAll(map[], AllSlots(ps, |file|));
    if free > 0 && table(STACK) then
      (Memory(InsertOne(vm, StackEntry()), Space(map[STACK := ZeroPage()], free - 1)), true)
    else (Memory(vm, Space(map[], free)), false)
  }

  /** The program touches address a: a fault if its page is not in memory. */
  function Touch(file: File, m: Memory, a: Word, table: Word -> bool): (Memory, bool) {
    var page := PageStart(a);
    if page in m.space.pages then (m, true)
    else if page !in m.vm || m.vm[page].kind.Anon? || m.vm[page].readBytes > PGSIZE then (m, false)
    else
      var (s, ok) := FaultOne(file, m.space, m.vm[page], table);
      (Memory(if ok then m.vm[page := m.vm[page].(isLoaded := true)] else m.vm, s), ok)
  }

  function TouchAll(file: File, m: Memory, addrs: seq<Word>, table: Word -> bool): (Memory, bool) {
    if addrs == [] then (m, true)
    else
      var (m', ok) := TouchAll(file, m, addrs[..|addrs| - 1], table);
      if ok then Touch(file, m', addrs[|addrs| - 1], table) else (m', false)
  }

  // ---------- facts about slots ----------

  lemma SlotsOfValid(p: Phdr, fileLength: FileSize)
    requires Validate(p, fileLength)
    ensures AllValid(SlotsOf(PlanOf(p)))
  {
    PlanExact(p, fileLength);
  }

  lemma {:induction false} SlotsValid(ps: seq<Phdr>, fileLength: FileSize)
    requires HeadersOk(ps, fileLength)
    ensures AllValid(Slots(ps))
  {
    if ps != [] {
      var p := ps[|ps| - 1];
      assert p in ps;
      SlotsValid(ps[..|ps| - 1], fileLength);
      if p.kind == PT_LOAD {
        SlotsOfValid(p, fileLength);
      }
    }
  }
}
