/**
 Loadable segments of an executable: the checks of validate_segment and the
 page arithmetic of load, on 32-bit words.
 */
module Segments {

  const WORD := 0x1_0000_0000
  const PGSIZE := 4096
  const PHYS_BASE := 0xC000_0000

  type Byte = x: int | 0 <= x < 256

  type Word = x: int | 0 <= x < WORD

  /** The lengths a file can have: off_t is signed. */
  type FileSize = x: int | 0 <= x < WORD / 2

  // ---------- C's unsigned arithmetic ----------

  function Add(a: Word, b: Word): Word {
    (a + b) % WORD
  }

  function Sub(a: Word, b: Word): Word {
    (a - b) % WORD
  }

  function PageOffset(x: Word): Word {
    x % PGSIZE
  }

  function PageStart(x: Word): Word {
    x - x % PGSIZE
  }

  /** ROUND_UP (x, PGSIZE). */
  function RoundUp(x: Word): Word {
    Add(x, PGSIZE - 1) / PGSIZE * PGSIZE
  }

  predicate IsUser(vaddr: Word) {
    vaddr < PHYS_BASE
  }

  // ---------- program headers ----------

  const PT_LOAD := 1
  const PT_DYNAMIC := 2
  const PT_INTERP := 3
  const PT_SHLIB := 5
  const PF_W := 2

  datatype Phdr = Phdr(kind: Word, offset: Word, vaddr: Word, filesz: Word, memsz: Word, flags: Word)

  /** validate_segment. */
  predicate Validate(p: Phdr, fileLength: FileSize) {
    && PageOffset(p.offset) == PageOffset(p.vaddr)
    && !(p.offset > fileLength)
    && !(p.memsz < p.filesz)
    && !(p.memsz == 0)
    && IsUser(p.vaddr)
    && IsUser(Add(p.vaddr, p.memsz))
    && !(Add(p.vaddr, p.memsz) < p.vaddr)
    && !(p.vaddr < PGSIZE)
  }

  /** The same in exact arithmetic: the segment lies strictly between page 0 and
      the kernel, holds at least its file part, and starts inside the file. */
  predicate Loadable(p: Phdr, fileLength: FileSize) {
    && PGSIZE <= p.vaddr < p.vaddr + p.memsz < PHYS_BASE
    && p.filesz <= p.memsz
    && p.offset <= fileLength
    && (p.offset - p.vaddr) % PGSIZE == 0
  }

  lemma SameOffset(a: int, b: int)
    ensures a % PGSIZE == b % PGSIZE <==> (a - b) % PGSIZE == 0
  {
  }

  /** The wrapping checks accept exactly the loadable segments. */
  lemma ValidateIff(p: Phdr, fileLength: FileSize)
    ensures Validate(p, fileLength) <==> Loadable(p, fileLength)
  {
    SameOffset(p.offset, p.vaddr);
    assert p.vaddr < PHYS_BASE && p.vaddr + p.memsz >= WORD ==> Add(p.vaddr, p.memsz) < p.vaddr;
  }

  // ---------- the arguments of load_segment ----------

  datatype Plan = Plan(ofs: Word, upage: Word, readBytes: Word, zeroBytes: Word, writable: bool)

  /** The PT_LOAD case of load. */
  function PlanOf(p: Phdr): Plan {
    var pageOffset := PageOffset(p.vaddr);
    var readBytes := if p.filesz > 0 then Add(pageOffset, p.filesz) else 0;
    var zeroBytes :=
      if p.filesz > 0 then Sub(RoundUp(Add(pageOffset, p.memsz)), readBytes)
      else RoundUp(Add(pageOffset, p.memsz));
    Plan(PageStart(p.offset), PageStart(p.vaddr), readBytes, zeroBytes, p.flags / PF_W % 2 == 1)
  }

  /** What load_segment's assertions ask for, and that it stays inside user memory. */
  predicate Whole(pl: Plan) {
    && (pl.readBytes + pl.zeroBytes) % PGSIZE == 0 && pl.upage % PGSIZE == 0 && pl.ofs % PGSIZE == 0
    && PGSIZE <= pl.upage && pl.upage + pl.readBytes + pl.zeroBytes <= PHYS_BASE
    && pl.ofs < WORD / 2
  }

  lemma RoundUpExact(x: Word)
    requires x <= PHYS_BASE
    ensures x <= RoundUp(x) < x + PGSIZE && RoundUp(x) % PGSIZE == 0 && RoundUp(x) <= PHYS_BASE
  {
    var y := Add(x, PGSIZE - 1);
    assert y == x + PGSIZE - 1;
    assert y == y / PGSIZE * PGSIZE + y % PGSIZE;
    PageMultiple(y / PGSIZE);
    BelowBase(y / PGSIZE, x);
  }

  lemma PageMultiple(k: int)
    ensures k * PGSIZE % PGSIZE == 0
  {
  }

  lemma BelowBase(k: int, x: int)
    requires k * PGSIZE < x + PGSIZE && x <= PHYS_BASE
    ensures k * PGSIZE <= PHYS_BASE
  {
    assert PHYS_BASE == 0xC_0000 * PGSIZE;
  }

  /** For an accepted segment no step of the arithmetic wraps: the file part and
      the page offset make up what is read, the rest of the last page is zeroed,
      and the pages are the fewest that cover the segment, below the kernel. */
  lemma PlanExact(p: Phdr, fileLength: FileSize)
    requires Validate(p, fileLength)
    ensures var pl := PlanOf(p);
            && Whole(pl)
            && pl.readBytes == (if p.filesz > 0 then p.vaddr - pl.upage + p.filesz else 0)
            && pl.upage <= p.vaddr < pl.upage + PGSIZE
            && p.vaddr + p.memsz <= pl.upage + pl.readBytes + pl.zeroBytes < p.vaddr + p.memsz + PGSIZE
            && p.offset - pl.ofs == p.vaddr - pl.upage
  {
    hide PlanOf, Validate, RoundUp;
    ValidateIff(p, fileLength);
    PlanSizes(p, fileLength);
    var pl, off := PlanOf(p), PageOffset(p.vaddr);
    RoundUpExact(off + p.memsz);
    PageMultiple(p.vaddr / PGSIZE);
    PageMultiple(p.offset / PGSIZE);
    TotalBelowBase(pl.upage, off + p.memsz, pl.readBytes + pl.zeroBytes);
  }

  lemma PlanSizes(p: Phdr, fileLength: FileSize)
    requires Loadable(p, fileLength)
    ensures var pl, off := PlanOf(p), PageOffset(p.vaddr);
            && pl.ofs == PageStart(p.offset) && pl.upage == PageStart(p.vaddr)
            && off + p.memsz <= PHYS_BASE
            && pl.readBytes == (if p.filesz > 0 then off + p.filesz else 0)
            && pl.readBytes + pl.zeroBytes == RoundUp(off + p.memsz)
  {
    hide RoundUp;
    var off := PageOffset(p.vaddr);
    assert Add(off, p.memsz) == off + p.memsz;
    assert Add(off, p.filesz) == off + p.filesz;
    RoundUpExact(off + p.memsz);
  }

  lemma TotalBelowBase(upage: int, x: int, total: int)
    requires upage % PGSIZE == 0 && total % PGSIZE == 0 && upage + x < PHYS_BASE && total < x + PGSIZE
    ensures upage + total <= PHYS_BASE
  {
    assert PHYS_BASE == 0xC_0000 * PGSIZE;
    assert upage + total < PHYS_BASE + PGSIZE;
    assert (upage + total) % PGSIZE == 0;
  }
}
