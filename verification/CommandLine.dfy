/**
 Splitting a command line, and the initial user stack that hands its words to main.
 */
module CommandLine {
  import opened Segments

  const SPACE: Byte := 32

  /** A C string without its terminator. */
  type Str = s: seq<Byte> | 0 !in s

  // ---------- words ----------

  /** The length of the word s starts with. */
  function WordLength(s: seq<Byte>): (n: nat)
    ensures n <= |s| && SPACE !in s[..n] && (n < |s| ==> s[n] == SPACE)
  {
    if s == [] || s[0] == SPACE then 0
    else
      var n := 1 + WordLength(s[1..]);
      assert s[..n] == [s[0]] + s[1..][..n - 1];
      n
  }

  /** The words of s, in order: what repeated strtok_r with " " yields. */
  function Tokens(s: seq<Byte>): (ts: seq<seq<Byte>>)
    ensures |Strings(ts)| <= |s| + 1 && forall t :: t in ts ==> t != [] && SPACE !in t
    decreases |s|
  {
    if s == [] then []
    else if s[0] == SPACE then Tokens(s[1..])
    else
      var n := WordLength(s);
      if n == |s| then [s]
      else
        var ts := [s[..n]] + Tokens(s[n + 1..]);
        assert ts[1..] == Tokens(s[n + 1..]);
        ts
  }

  /** What parse_filename leaves. */
  function FirstWord(s: seq<Byte>): seq<Byte> {
    s[..WordLength(s)]
  }

  /** The words ts with gap[i] spaces before word i and gap[|ts|] after the last. */
  function Spaced(ts: seq<seq<Byte>>, gap: seq<nat>): seq<Byte>
    requires |gap| == |ts| + 1
  {
    if ts == [] then Spaces(gap[0]) else Spaces(gap[0]) + ts[0] + Spaced(ts[1..], gap[1..])
  }

  function Spaces(n: nat): (s: seq<Byte>)
    ensures |s| == n && forall c :: c in s ==> c == SPACE
  {
    seq(n, _ => SPACE)
  }

  lemma {:induction false} SkipSpaces(n: nat, s: seq<Byte>)
    ensures Tokens(Spaces(n) + s) == Tokens(s)
  {
    if n == 0 {
      assert Spaces(0) + s == s;
    } else {
      assert (Spaces(n) + s)[1..] == Spaces(n - 1) + s;
      SkipSpaces(n - 1, s);
    }
  }

  lemma {:induction false} WordThen(t: seq<Byte>, s: seq<Byte>)
    requires SPACE !in t && (s == [] || s[0] == SPACE)
    ensures WordLength(t + s) == |t|
  {
    if t == [] {
      assert t + s == s;
    } else {
      assert t == [t[0]] + t[1..];
      assert (t + s)[1..] == t[1..] + s;
      WordThen(t[1..], s);
    }
  }

  /** However the words are spaced, splitting finds exactly them. */
  lemma {:induction false} TokensOfSpaced(ts: seq<seq<Byte>>, gap: seq<nat>)
    requires |gap| == |ts| + 1
    requires forall t :: t in ts ==> t != [] && SPACE !in t
    requires forall i :: 0 < i < |ts| ==> gap[i] > 0
    ensures Tokens(Spaced(ts, gap)) == ts
  {
    if ts == [] {
      SkipSpaces(gap[0], []);
      assert Spaces(gap[0]) + [] == Spaces(gap[0]);
    } else {
      var t, rest := ts[0], Spaced(ts[1..], gap[1..]);
      assert t in ts;
      assert forall u :: u in ts[1..] ==> u in ts;
      TokensOfSpaced(ts[1..], gap[1..]);
      RestStarts(ts[1..], gap[1..]);
      SkipSpaces(gap[0], t + rest);
      assert Spaces(gap[0]) + t + rest == Spaces(gap[0]) + (t + rest);
      WordThen(t, rest);
      if rest == [] {
        assert t + rest == t;
        assert ts[1..] == [];
        assert ts == [t];
      } else {
        assert (t + rest)[|t|..] == rest && (t + rest)[..|t|] == t;
        assert (t + rest)[|t| + 1..] == rest[1..];
        assert Tokens(rest) == Tokens(rest[1..]);
        assert ts == [t] + ts[1..];
      }
    }
  }

  lemma RestStarts(ts: seq<seq<Byte>>, gap: seq<nat>)
    requires |gap| == |ts| + 1 && (ts != [] ==> gap[0] > 0)
    ensures var s := Spaced(ts, gap); s == [] || s[0] == SPACE
    ensures Spaced(ts, gap) == [] ==> ts == []
  {
    assert ts != [] ==> Spaces(gap[0])[0] == SPACE;
  }

  /** The program run is the first word, unless the line starts with a space. */
  lemma FirstWordIff(s: seq<Byte>)
    requires Tokens(s) != []
    ensures FirstWord(s) == Tokens(s)[0] <==> s[0] != SPACE
  {
    if s[0] == SPACE {
      assert FirstWord(s) == [];
      assert Tokens(s)[0] in Tokens(s);
    }
  }

  // ---------- the stack ----------

  /** The words as C strings, one after another. */
  function Strings(ts: seq<seq<Byte>>): seq<Byte> {
    if ts == [] then [] else ts[0] + [0] + Strings(ts[1..])
  }

  /** A little-endian word. */
  function Bytes4(v: Word): (b: seq<Byte>)
    ensures |b| == 4
  {
    [v % 256, v / 256 % 256, v / 0x1_0000 % 256, v / 0x100_0000]
  }

  function Word4(b: seq<Byte>): Word
    requires |b| == 4
  {
    (b[0] as int) + (b[1] as int) * 256 + (b[2] as int) * 0x1_0000 + (b[3] as int) * 0x100_0000
  }

  /** The addresses of the strings of ts when their last byte is just below top. */
  function Pointers(ts: seq<seq<Byte>>, top: int): (b: seq<Byte>)
    requires |Strings(ts)| <= top < WORD
    ensures |b| == 4 * |ts|
  {
    if ts == [] then [] else Bytes4(top - |Strings(ts)|) + Pointers(ts[1..], top)
  }

  function Padding(ts: seq<seq<Byte>>): nat {
    (4 - |Strings(ts)| % 4) % 4
  }

  /** The bytes construct_esp takes from the stack. */
  function Used(ts: seq<seq<Byte>>): nat {
    |Strings(ts)| + Padding(ts) + 4 * (|ts| + 1) + 12
  }

  /** The address of argv[0]. */
  function ArgvAt(ts: seq<seq<Byte>>): int {
    PHYS_BASE - Used(ts) + 12
  }

  /** The stack page after construct_esp: the untouched part, a return address of
      zero, argc, argv, the pointers, a null pointer, padding as it was, the strings. */
  function Printed(page: seq<Byte>, ts: seq<seq<Byte>>): seq<Byte>
    requires |page| == PGSIZE && Used(ts) <= PGSIZE
  {
    page[..PGSIZE - Used(ts)] + (Bytes4(0) + (Bytes4(|ts|) + (Bytes4(ArgvAt(ts)) + Vector(page, ts))))
  }

  /** From the pointers up. */
  function Vector(page: seq<Byte>, ts: seq<seq<Byte>>): seq<Byte>
    requires |page| == PGSIZE && Used(ts) <= PGSIZE
  {
    Pointers(ts, PHYS_BASE) + (Bytes4(0) + Padded(page, ts))
  }

  /** The strings, above padding that keeps what it held. */
  function Padded(page: seq<Byte>, ts: seq<seq<Byte>>): seq<Byte>
    requires |page| == PGSIZE && Used(ts) <= PGSIZE
  {
    var n := |Strings(ts)|;
    page[PGSIZE - n - Padding(ts)..PGSIZE - n] + Strings(ts)
  }

  // ---------- reading it back ----------

  const STACK_PAGE := PHYS_BASE - PGSIZE

  function ReadWord(page: seq<Byte>, addr: int): int
    requires |page| == PGSIZE
  {
    if STACK_PAGE <= addr && addr + 4 <= PHYS_BASE then Word4(page[addr - STACK_PAGE..addr - STACK_PAGE + 4]) else -1
  }

  /** The bytes from the start of s to the first zero. */
  function UntilZero(s: seq<Byte>): seq<Byte> {
    if s == [] || s[0] == 0 then [] else [s[0]] + UntilZero(s[1..])
  }

  function ReadString(page: seq<Byte>, addr: int): seq<Byte>
    requires |page| == PGSIZE
  {
    if STACK_PAGE <= addr < PHYS_BASE then UntilZero(page[addr - STACK_PAGE..]) else []
  }

  /** n strings through the pointers from addr on. */
  function ReadStrings(page: seq<Byte>, addr: int, n: nat): seq<seq<Byte>>
    requires |page| == PGSIZE
    decreases n
  {
    if n == 0 then [] else [ReadString(page, ReadWord(page, addr))] + ReadStrings(page, addr + 4, n - 1)
  }

  /** What main finds: argc words through argv. */
  function ReadArgs(page: seq<Byte>, esp: int): seq<seq<Byte>>
    requires |page| == PGSIZE
  {
    var argc := ReadWord(page, esp + 4);
    if argc < 0 then [] else ReadStrings(page, ReadWord(page, esp + 8), argc)
  }

  lemma ReadsBack(v: Word)
    ensures Word4(Bytes4(v)) == v
  {
    assert v == v / 256 * 256 + v % 256;
    assert v / 256 == v / 0x1_0000 * 256 + v / 256 % 256 by {
      assert v / 256 / 256 == v / 0x1_0000;
    }
    assert v / 0x1_0000 == v / 0x100_0000 * 256 + v / 0x1_0000 % 256 by {
      assert v / 0x1_0000 / 256 == v / 0x100_0000;
    }
  }

  // ---------- sizes ----------

  /** Every word takes at least two bytes of the strings. */
  lemma {:induction false} StringsSize(ts: seq<seq<Byte>>)
    requires forall t :: t in ts ==> t != []
    ensures 2 * |ts| <= |Strings(ts)|
  {
    if ts != [] {
      assert ts[0] in ts;
      assert forall t :: t in ts[1..] ==> t in ts;
      StringsSize(ts[1..]);
    }
  }

  /** For a command line that fits its buffer the whole stack image fits the one
      page there is, with room to spare, and ends on a word boundary. */
  lemma UsedFits(s: seq<Byte>)
    requires |s| < 256
    ensures Used(Tokens(s)) <= 784 && (PHYS_BASE - Used(Tokens(s))) % 4 == 0
    ensures |Strings(Tokens(s))| <= |s| + 1 && |Tokens(s)| <= 128
  {
    var ts := Tokens(s);
    StringsSize(ts);
    WordBoundary(|Strings(ts)|, |ts|);
  }

  lemma WordBoundary(total: nat, argc: nat)
    ensures (PHYS_BASE - (total + (4 - total % 4) % 4 + 4 * (argc + 1) + 12)) % 4 == 0
    ensures total <= 256 ==> total + (4 - total % 4) % 4 <= 256
  {
  }

  // ---------- round trip ----------

  lemma Piece(p: seq<Byte>, i: nat, piece: seq<Byte>, rest: seq<Byte>)
    requires i <= |p| && p[i..] == piece + rest
    ensures i + |piece| <= |p| && p[i..i + |piece|] == piece && p[i + |piece|..] == rest
  {
    assert |p[i..]| == |piece| + |rest|;
    assert p[i..i + |piece|] == p[i..][..|piece|];
    assert p[i + |piece|..] == p[i..][|piece|..];
  }

  lemma PrintedIs(page: seq<Byte>, ts: seq<seq<Byte>>)
    requires |page| == PGSIZE && Used(ts) <= PGSIZE
    ensures var p, off := Printed(page, ts), PGSIZE - Used(ts);
            && |p| == PGSIZE && p[..off] == page[..off]
            && p[off..] == Bytes4(0) + (Bytes4(|ts|) + (Bytes4(ArgvAt(ts)) + Vector(page, ts)))
  {
    hide Strings, Pointers, Bytes4, Padding, Padded, Vector;
    VectorIs(page, ts);
    PaddedIs(page, ts);
    assert |Vector(page, ts)| == 4 * |ts| + 4 + |Padded(page, ts)|;
  }

  /** Where each part of the image is. */
  lemma PartsOfImage(page: seq<Byte>, ts: seq<seq<Byte>>)
    requires |page| == PGSIZE && Used(ts) <= PGSIZE
    ensures var p, off := Printed(page, ts), PGSIZE - Used(ts);
            && |p| == PGSIZE && p[..off] == page[..off]
            && p[off..off + 4] == Bytes4(0) && p[off + 4..off + 8] == Bytes4(|ts|)
                && p[off + 8..off + 12] == Bytes4(ArgvAt(ts))
            && p[off + 12..off + 12 + 4 * |ts|] == Pointers(ts, PHYS_BASE)
            && p[off + 12 + 4 * |ts|..off + 16 + 4 * |ts|] == Bytes4(0)
            && p[PGSIZE - |Strings(ts)|..] == Strings(ts)
  {
    hide Strings, Pointers, Bytes4, Padded, Vector, Printed, Padding;
    PrintedIs(page, ts);
    var p, off := Printed(page, ts), PGSIZE - Used(ts);
    var tail3 := Bytes4(ArgvAt(ts)) + Vector(page, ts);
    Piece(p, off, Bytes4(0), Bytes4(|ts|) + tail3);
    Piece(p, off + 4, Bytes4(|ts|), tail3);
    Piece(p, off + 8, Bytes4(ArgvAt(ts)), Vector(page, ts));
    VectorIs(page, ts);
    Piece(p, off + 12, Pointers(ts, PHYS_BASE), Bytes4(0) + Padded(page, ts));
    Piece(p, off + 12 + 4 * |ts|, Bytes4(0), Padded(page, ts));
    PaddedIs(page, ts);
    Piece(p, off + 16 + 4 * |ts|, page[PGSIZE - |Strings(ts)| - Padding(ts)..PGSIZE - |Strings(ts)|], Strings(ts));
  }

  lemma VectorIs(page: seq<Byte>, ts: seq<seq<Byte>>)
    requires |page| == PGSIZE && Used(ts) <= PGSIZE
    ensures Vector(page, ts) == Pointers(ts, PHYS_BASE) + (Bytes4(0) + Padded(page, ts))
  {
  }

  lemma PaddedIs(page: seq<Byte>, ts: seq<seq<Byte>>)
    requires |page| == PGSIZE && Used(ts) <= PGSIZE
    ensures var n := |Strings(ts)|;
            Padded(page, ts) == page[PGSIZE - n - Padding(ts)..PGSIZE - n] + Strings(ts)
                && |Padded(page, ts)| == n + Padding(ts)
  {
  }

  lemma {:induction false} PointerAt(ts: seq<seq<Byte>>, top: int, i: nat)
    requires |Strings(ts)| <= top < WORD && i < |ts|
    ensures |Strings(ts[i..])| <= |Strings(ts)|
    ensures Pointers(ts, top)[4 * i..4 * i + 4] == Bytes4(top - |Strings(ts[i..])|)
  {
    if i == 0 {
      assert ts[0..] == ts;
    } else {
      PointerAt(ts[1..], top, i - 1);
      assert ts[1..][i - 1..] == ts[i..];
      assert Pointers(ts, top) == Bytes4(top - |Strings(ts)|) + Pointers(ts[1..], top);
      assert Pointers(ts, top)[4 * i..4 * i + 4] == Pointers(ts[1..], top)[4 * (i - 1)..4 * (i - 1) + 4];
    }
  }

  lemma {:induction false} StringsFrom(ts: seq<seq<Byte>>, i: nat)
    requires i <= |ts|
    ensures |Strings(ts[i..])| <= |Strings(ts)|
    ensures Strings(ts)[|Strings(ts)| - |Strings(ts[i..])|..] == Strings(ts[i..])
  {
    if i == 0 {
      assert ts[0..] == ts;
    } else {
      StringsFrom(ts[1..], i - 1);
      assert ts[1..][i - 1..] == ts[i..];
      var n := |ts[0]| + 1;
      assert Strings(ts)[n..] == Strings(ts[1..]);
      assert Strings(ts)[|Strings(ts)| - |Strings(ts[i..])|..] ==
             Strings(ts)[n..][|Strings(ts[1..])| - |Strings(ts[i..])|..];
    }
  }

  lemma {:induction false} FirstString(t: seq<Byte>, rest: seq<Byte>)
    requires 0 !in t
    ensures UntilZero(t + [0] + rest) == t
  {
    if t == [] {
      assert t + [0] + rest == [0] + rest;
    } else {
      assert (t + [0] + rest)[1..] == t[1..] + [0] + rest;
      FirstString(t[1..], rest);
      assert t == [t[0]] + t[1..];
    }
  }

  lemma SliceOfSlice(p: seq<Byte>, a: int, b: int, c: int, d: int)
    requires 0 <= a <= b <= |p| && 0 <= c <= d <= b - a
    ensures p[a..b][c..d] == p[a + c..a + d]
  {
    forall k | 0 <= k < d - c ensures p[a..b][c..d][k] == p[a + c..a + d][k] {
      assert p[a..b][c..d][k] == p[a..b][c + k];
    }
  }

  lemma ArgPointer(page: seq<Byte>, ts: seq<seq<Byte>>, i: nat)
    requires |page| == PGSIZE && Used(ts) <= PGSIZE && i < |ts|
    ensures |Printed(page, ts)| == PGSIZE && |Strings(ts[i..])| <= |Strings(ts)|
    ensures ReadWord(Printed(page, ts), ArgvAt(ts) + 4 * i) == PHYS_BASE - |Strings(ts[i..])|
  {
    hide Printed, Strings, Pointers, Bytes4, Word4;
    PartsOfImage(page, ts);
    PointerAt(ts, PHYS_BASE, i);
    var p, off := Printed(page, ts), PGSIZE - Used(ts) + 12;
    SliceOfSlice(p, off, off + 4 * |ts|, 4 * i, 4 * i + 4);
    ReadsBack(PHYS_BASE - |Strings(ts[i..])|);
  }

  lemma ArgString(page: seq<Byte>, ts: seq<seq<Byte>>, i: nat)
    requires |page| == PGSIZE && Used(ts) <= PGSIZE && i < |ts| && 0 !in ts[i]
    ensures |Printed(page, ts)| == PGSIZE && 0 < |Strings(ts[i..])| <= |Strings(ts)|
    ensures ReadString(Printed(page, ts), PHYS_BASE - |Strings(ts[i..])|) == ts[i]
  {
    hide Printed, Pointers, Bytes4;
    PartsOfImage(page, ts);
    StringsFrom(ts, i);
    var p, strings := Printed(page, ts), Strings(ts);
    assert ts[i..][0] == ts[i];
    assert p[PGSIZE - |Strings(ts[i..])|..] == p[PGSIZE - |strings|..][|strings| - |Strings(ts[i..])|..];
    FirstString(ts[i], Strings(ts[i..][1..]));
  }

  /** argv[i] points at word i. */
  lemma ArgAt(page: seq<Byte>, ts: seq<seq<Byte>>, i: nat)
    requires |page| == PGSIZE && Used(ts) <= PGSIZE && i < |ts| && 0 !in ts[i]
    ensures |Printed(page, ts)| == PGSIZE
    ensures ReadString(Printed(page, ts), ReadWord(Printed(page, ts), ArgvAt(ts) + 4 * i)) == ts[i]
  {
    hide Printed, ReadWord, ReadString, Strings, Used;
    ArgPointer(page, ts, i);
    ArgString(page, ts, i);
  }

  lemma {:induction false} ArgsFrom(page: seq<Byte>, ts: seq<seq<Byte>>, i: nat)
    requires |page| == PGSIZE && Used(ts) <= PGSIZE && i <= |ts| && forall t :: t in ts ==> 0 !in t
    ensures |Printed(page, ts)| == PGSIZE
    ensures ReadStrings(Printed(page, ts), ArgvAt(ts) + 4 * i, |ts| - i) == ts[i..]
    decreases |ts| - i
  {
    hide Printed, ReadString, ReadWord, Strings, Pointers, Bytes4, Used;
    PartsOfImage(page, ts);
    if i < |ts| {
      var t := ts[i];
      assert t in ts;
      ArgAt(page, ts, i);
      ArgsFrom(page, ts, i + 1);
      assert ArgvAt(ts) + 4 * i + 4 == ArgvAt(ts) + 4 * (i + 1);
      assert ts[i..] == [t] + ts[i + 1..];
    }
  }

  /** main finds the words, in order, and a null pointer after the last. */
  lemma RoundTrip(page: seq<Byte>, ts: seq<seq<Byte>>)
    requires |page| == PGSIZE && Used(ts) <= PGSIZE && forall t :: t in ts ==> 0 !in t
    ensures var p, esp := Printed(page, ts), PHYS_BASE - Used(ts);
            && |p| == PGSIZE
            && ReadArgs(p, esp) == ts
            && ReadWord(p, esp) == 0
            && ReadWord(p, ReadWord(p, esp + 8) + 4 * |ts|) == 0
  {
    hide Printed, ReadStrings, Strings;
    PartsOfImage(page, ts);
    ReadsBack(|ts|);
    ReadsBack(ArgvAt(ts));
    ReadsBack(0);
    ArgsFrom(page, ts, 0);
    assert ts[0..] == ts;
  }
}
