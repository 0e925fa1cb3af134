/** construct_esp and parse_filename, working in place on buffers and the stack page. */
module ArgStack {
  import opened Segments
  import opened CommandLine

  /** The C string s is at position at of buf. */
  ghost predicate Holds(buf: seq<Byte>, at: int, s: seq<Byte>) {
    && 0 <= at && at + |s| < |buf|
    && buf[at..at + |s|] == s && buf[at + |s|] == 0 && 0 !in s
  }

  lemma HoldsAt(buf: seq<Byte>, at: int, s: seq<Byte>, i: nat)
    requires Holds(buf, at, s) && i <= |s|
    ensures i < |s| ==> buf[at + i] == s[i] && s[i] != 0
    ensures i == |s| ==> buf[at + i] == 0
    ensures Holds(buf, at + i, s[i..])
  {
    if i < |s| {
      assert buf[at..at + |s|][i] == s[i];
      assert s[i] in s;
    }
    assert buf[at + i..at + |s|] == buf[at..at + |s|][i..];
  }

  // ---------- the string library ----------

  method Strlen(buf: array<Byte>, at: nat, ghost s: seq<Byte>) returns (n: nat)
    requires Holds(buf[..], at, s)
    ensures n == |s|
  {
    n := 0;
    HoldsAt(buf[..], at, s, 0);
    while buf[at + n] != 0
      invariant n <= |s|
      decreases |s| - n
    {
      HoldsAt(buf[..], at, s, n);
      n := n + 1;
    }
    HoldsAt(buf[..], at, s, n);
  }

  /** was with s copied to position to. */
  function Copied(was: seq<Byte>, to: nat, s: seq<Byte>): seq<Byte>
    requires to + |s| <= |was|
  {
    was[..to] + s + was[to + |s|..]
  }

  lemma CopyOne(was: seq<Byte>, to: nat, s: seq<Byte>, b: Byte)
    requires to + |s| < |was|
    ensures Copied(was, to, s)[to + |s| := b] == Copied(was, to, s + [b])
  {
    var rest := was[to + |s|..];
    assert rest == [rest[0]] + was[to + |s| + 1..];
    assert Copied(was, to, s) == was[..to] + s + [rest[0]] + was[to + |s| + 1..];
  }

  /** strlcpy with room for the whole string. */
  method Strlcpy(dst: array<Byte>, to: nat, src: array<Byte>, at: nat, ghost s: seq<Byte>)
    requires Holds(src[..], at, s) && to + |s| < dst.Length && src != dst
    modifies dst
    ensures dst[..] == Copied(old(dst[..]), to, s + [0])
  {
    hide Holds, Copied;
    var i := 0;
    HoldsAt(src[..], at, s, 0);
    CopyNone(dst[..], to);
    while src[at + i] != 0
      invariant i <= |s| && at + i < src.Length && Holds(src[..], at, s) && dst[..] == Copied(old(dst[..]), to, s[..i])
      decreases |s| - i
    {
      HoldsAt(src[..], at, s, i);
      CopyOne(old(dst[..]), to, s[..i], s[i]);
      assert s[..i] + [s[i]] == s[..i + 1];
      dst[to + i] := src[at + i];
      i := i + 1;
      HoldsAt(src[..], at, s, i);
    }
    HoldsAt(src[..], at, s, i);
    assert s[..i] == s;
    CopyOne(old(dst[..]), to, s, 0);
    dst[to + i] := 0;
  }

  lemma CopyNone(was: seq<Byte>, to: nat)
    requires to <= |was|
    ensures Copied(was, to, []) == was
  {
    assert was[..to] + [] + was[to..] == was;
  }

  lemma SkipSpace(s: seq<Byte>)
    requires s != [] && s[0] == SPACE
    ensures Tokens(s) == Tokens(s[1..])
  {
  }

  /** The position after the spaces at position at. */
  method SkipDelimiters(buf: array<Byte>, at: nat, ghost s: seq<Byte>) returns (p: nat, ghost left: seq<Byte>)
    requires Holds(buf[..], at, s)
    ensures at <= p && Holds(buf[..], p, left) && Tokens(left) == Tokens(s) && (left == [] || left[0] != SPACE)
  {
    hide Holds, Tokens;
    p, left := at, s;
    HoldsAt(buf[..], p, left, 0);
    while buf[p] == SPACE
      invariant at <= p < buf.Length && Holds(buf[..], p, left) && Tokens(left) == Tokens(s)
      invariant if left == [] then buf[p] == 0 else buf[p] == left[0]
      decreases |left|
    {
      HoldsAt(buf[..], p, left, 1);
      SkipSpace(left);
      p, left := p + 1, left[1..];
      HoldsAt(buf[..], p, left, 0);
    }
  }

  /** The position after the word at position at. */
  method SkipWord(buf: array<Byte>, at: nat, ghost s: seq<Byte>) returns (p: nat)
    requires Holds(buf[..], at, s)
    ensures p == at + WordLength(s) < buf.Length && buf[p] == (if WordLength(s) < |s| then SPACE else 0)
  {
    hide Holds, WordLength;
    p := at;
    HoldsAt(buf[..], at, s, 0);
    WordInside(s, 0);
    while buf[p] != SPACE && buf[p] != 0
      invariant at <= p <= at + WordLength(s) && p < buf.Length
      invariant buf[p] == if p - at == |s| then 0 else s[p - at]
      decreases at + WordLength(s) - p
    {
      WordInside(s, p - at);
      p := p + 1;
      HoldsAt(buf[..], at, s, p - at);
    }
    WordInside(s, p - at);
    HoldsAt(buf[..], at, s, p - at);
  }

  /** strtok_r with " ": from at on, s is still to be split. */
  method StrtokR(buf: array<Byte>, at: nat, ghost s: seq<Byte>) returns (token: int, last: nat, ghost rest: seq<Byte>)
    requires Holds(buf[..], at, s)
    modifies buf
    ensures Tokens(s) == [] ==> token == -1 && buf[..] == old(buf[..])
    ensures Tokens(s) != [] ==>
              && at <= token && token + |Tokens(s)[0]| <= last
              && Holds(buf[..], token, Tokens(s)[0])
              && Holds(buf[..], last, rest) && Tokens(rest) == Tokens(s)[1..]
              && buf[..at + 1] == old(buf[..at + 1])
  {
    hide Holds, WordLength, Tokens;
    ghost var was := buf[..];
    var p; ghost var left;
    p, left := SkipDelimiters(buf, at, s);
    HoldsAt(was, p, left, 0);
    if buf[p] == 0 {
      NoWords(left);
      return -1, p, [];
    }
    token := p;
    WordTaken(left);
    ghost var n := WordLength(left);
    p := SkipWord(buf, token, left);
    if buf[p] != 0 {
      buf[p] := 0;
      last, rest := p + 1, left[n + 1..];
      CutAt(was, buf[..], token, left, n);
      assert buf[..at + 1] == was[..at + 1];
    } else {
      last, rest := p, [];
      HoldsAt(was, token, left, n);
      assert left[..n] == left && left[n..] == [];
      NoWords([]);
    }
  }

  lemma NoWords(s: seq<Byte>)
    ensures s == [] ==> Tokens(s) == []
  {
  }

  /** Inside the first word there is no space; after it there is. */
  lemma WordInside(s: seq<Byte>, i: nat)
    requires i <= WordLength(s)
    ensures i < WordLength(s) ==> s[i] != SPACE
    ensures i == WordLength(s) < |s| ==> s[i] == SPACE
  {
    if i < WordLength(s) {
      assert s[..WordLength(s)][i] == s[i];
    }
  }

  lemma WordTaken(s: seq<Byte>)
    requires s != [] && s[0] != SPACE
    ensures var n := WordLength(s);
            && n > 0 && Tokens(s) != [] && Tokens(s)[0] == s[..n]
            && (n < |s| ==> Tokens(s[n + 1..]) == Tokens(s)[1..])
            && (n == |s| ==> Tokens(s)[1..] == [])
  {
    hide Strings;
    var n := WordLength(s);
    if n == |s| {
      assert s[..n] == s;
      assert Tokens(s) == [s];
    } else {
      assert Tokens(s) == [s[..n]] + Tokens(s[n + 1..]);
    }
  }

  /** Ending a word by a zero where the space was. */
  lemma CutAt(was: seq<Byte>, buf: seq<Byte>, at: nat, s: seq<Byte>, n: nat)
    requires Holds(was, at, s) && n < |s| && buf == was[at + n := 0]
    ensures Holds(buf, at, s[..n]) && Holds(buf, at + n + 1, s[n + 1..])
  {
    HoldsAt(was, at, s, n + 1);
    assert buf[at..at + n] == was[at..at + |s|][..n];
    assert buf[at + n + 1..at + |s|] == was[at + n + 1..at + |s|];
  }

  /** parse_filename. */
  method ParseFilename(src: array<Byte>, dest: array<Byte>, ghost s: seq<Byte>)
    requires Holds(src[..], 0, s) && |s| < dest.Length && src != dest
    modifies dest
    ensures Holds(dest[..], 0, FirstWord(s))
  {
    hide WordLength;
    Strlcpy(dest, 0, src, 0, s);
    ghost var was := dest[..];
    assert was[0..|s|] == s && was[|s|] == 0;
    var i := SkipWord(dest, 0, s);
    dest[i] := 0;
    if i < |s| {
      CutAt(was, dest[..], 0, s, i);
    } else {
      assert dest[..] == was;
      assert s[..i] == s;
    }
  }

  // ---------- the stack page ----------

  /** The page holds top at its end and is otherwise as it was. */
  ghost predicate Pushed(page: seq<Byte>, was: seq<Byte>, k: int, top: seq<Byte>) {
    0 <= k <= |was| && page == was[..k] + top && |page| == |was|
  }

  /** Push one word at offset k. */
  method PushWord(page: array<Byte>, k: nat, v: Word, ghost was: seq<Byte>, ghost top: seq<Byte>)
    requires k >= 4 && Pushed(page[..], was, k, top)
    modifies page
    ensures Pushed(page[..], was, k - 4, Bytes4(v) + top)
  {
    page[k - 4] := v % 256;
    page[k - 3] := v / 256 % 256;
    page[k - 2] := v / 0x1_0000 % 256;
    page[k - 1] := v / 0x100_0000;
    assert page[..] == page[..k - 4] + Bytes4(v) + page[k..];
    assert page[k..] == top;
    assert page[..k - 4] == was[..k - 4];
  }

  /** Push one string, down to offset to. */
  method PushString(page: array<Byte>, to: nat, src: array<Byte>, at: nat, ghost s: seq<Byte>,
                    ghost was: seq<Byte>, ghost top: seq<Byte>)
    requires Holds(src[..], at, s) && Pushed(page[..], was, to + |s| + 1, top) && src != page
    modifies page
    ensures Pushed(page[..], was, to, s + [0] + top)
  {
    assert page[to + |s| + 1..] == top;
    Strlcpy(page, to, src, at, s);
    assert page[..to] == was[..to];
  }

  // ---------- construct_esp ----------

  lemma HoldsPrefix(buf: seq<Byte>, buf': seq<Byte>, at: int, s: seq<Byte>, last: nat)
    requires Holds(buf, at, s) && at + |s| <= last < |buf| == |buf'| && buf[..last + 1] == buf'[..last + 1]
    ensures Holds(buf', at, s)
  {
    assert buf'[at..at + |s|] == buf'[..last + 1][at..at + |s|];
    assert buf[at..at + |s|] == buf[..last + 1][at..at + |s|];
    assert buf'[..last + 1][at + |s|] == buf[..last + 1][at + |s|];
  }

  lemma HoldsBound(buf: seq<Byte>, at: int, s: seq<Byte>)
    requires Holds(buf, at, s)
    ensures 0 <= at && at + |s| < |buf|
  {
  }

  /** The first loop: argc. */
  method CountWords(buf: array<Byte>, ghost s: seq<Byte>) returns (argc: nat)
    requires Holds(buf[..], 0, s)
    modifies buf
    ensures argc == |Tokens(s)|
  {
    hide Holds, Tokens;
    ghost var ts, rest: seq<Byte> := Tokens(s), [];
    var token, last := 0, 0;
    token, last, rest := StrtokR(buf, 0, s);
    argc := 0;
    while token != -1
      invariant argc <= |ts| && (token == -1 <==> argc == |ts|)
      invariant token != -1 ==> Holds(buf[..], last, rest) && Tokens(rest) == ts[argc + 1..]
      decreases |ts| - argc
    {
      argc := argc + 1;
      token, last, rest := StrtokR(buf, last, rest);
    }
  }

  /** argv[i] is where word i is in buf. */
  ghost predicate Split(buf: seq<Byte>, argv: seq<int>, ts: seq<seq<Byte>>, n: nat) {
    n <= |argv| && n <= |ts| && forall j :: 0 <= j < n ==> Holds(buf, argv[j], ts[j])
  }

  ghost predicate Below(argv: seq<int>, ts: seq<seq<Byte>>, n: nat, last: nat) {
    n <= |argv| && n <= |ts| && forall j :: 0 <= j < n ==> argv[j] + |ts[j]| <= last
  }

  lemma SplitPrefix(buf: seq<Byte>, buf': seq<Byte>, argv: seq<int>, ts: seq<seq<Byte>>, n: nat, last: nat)
    requires Split(buf, argv, ts, n) && Below(argv, ts, n, last)
    requires last < |buf| == |buf'| && buf[..last + 1] == buf'[..last + 1]
    ensures Split(buf', argv, ts, n)
  {
    forall j | 0 <= j < n ensures Holds(buf', argv[j], ts[j]) {
      HoldsPrefix(buf, buf', argv[j], ts[j], last);
    }
  }

  lemma SplitNext(buf: seq<Byte>, argv: seq<int>, argv': seq<int>, ts: seq<seq<Byte>>, n: nat, last: nat, last': nat)
    requires Split(buf, argv, ts, n) && Below(argv, ts, n, last) && last <= last'
    requires n < |argv| == |argv'| && n < |ts| && argv'[..n] == argv[..n]
    requires Holds(buf, argv'[n], ts[n]) && argv'[n] + |ts[n]| <= last'
    ensures Split(buf, argv', ts, n + 1) && Below(argv', ts, n + 1, last')
  {
    forall j | 0 <= j < n + 1 ensures Holds(buf, argv'[j], ts[j]) && argv'[j] + |ts[j]| <= last' {
      if j < n {
        assert argv'[..n][j] == argv[..n][j];
      }
    }
  }

  /** The second loop: the words of the line, through argv. */
  method SplitWords(buf: array<Byte>, argv: array<int>, argc: nat, ghost s: seq<Byte>)
    requires Holds(buf[..], 0, s) && argc == argv.Length == |Tokens(s)| && buf.Length > 0
    modifies buf, argv
    ensures Split(buf[..], argv[..], Tokens(s), argc)
  {
    hide Holds, Tokens, Split, Below;
    ghost var ts, rest: seq<Byte>, seen := Tokens(s), [], 0;
    var token, last := 0, 0;
    NothingSplit(buf[..], argv[..], ts);
    token, last, rest := StrtokR(buf, 0, s);
    NothingSplit(buf[..], argv[..], ts);
    var i := 0;
    while i < argc
      invariant i <= argc && Split(buf[..], argv[..], ts, i) && Below(argv[..], ts, i, seen)
      invariant i < argc ==>
                  && seen <= last && token + |ts[i]| <= last && Holds(buf[..], token, ts[i])
                  && Holds(buf[..], last, rest) && Tokens(rest) == ts[i + 1..]
    {
      ghost var was := argv[..];
      argv[i] := token;
      SplitNext(buf[..], was, argv[..], ts, i, seen, last);
      HoldsBound(buf[..], last, rest);
      ghost var buf0, last0 := buf[..], last;
      i, seen := i + 1, last;
      token, last, rest := StrtokR(buf, last, rest);
      SplitPrefix(buf0, buf[..], argv[..], ts, i, last0);
    }
  }

  lemma NothingSplit(buf: seq<Byte>, argv: seq<int>, ts: seq<seq<Byte>>)
    ensures Split(buf, argv, ts, 0) && Below(argv, ts, 0, 0)
  {
  }

  lemma StringsDown(ts: seq<seq<Byte>>, i: nat)
    requires i < |ts|
    ensures Strings(ts[i..]) == ts[i] + [0] + Strings(ts[i + 1..])
    ensures |Strings(ts[i..])| == |ts[i]| + 1 + |Strings(ts[i + 1..])| <= |Strings(ts)|
  {
    assert ts[i..][1..] == ts[i + 1..];
    StringsFrom(ts, i);
  }

  lemma PointersDown(ts: seq<seq<Byte>>, top: int, i: nat)
    requires i < |ts| && |Strings(ts)| <= top < WORD
    ensures |Strings(ts[i + 1..])| <= |Strings(ts[i..])| <= top
    ensures Pointers(ts[i..], top) == Bytes4(top - |Strings(ts[i..])|) + Pointers(ts[i + 1..], top)
  {
    StringsDown(ts, i);
    assert ts[i..][1..] == ts[i + 1..];
  }

  /** From word n on, argv[j] is the address of word j on the stack. */
  ghost predicate Addresses(argv: seq<int>, ts: seq<seq<Byte>>, n: nat) {
    |argv| == |ts| && forall j :: n <= j < |ts| ==> argv[j] == PHYS_BASE - |Strings(ts[j..])|
  }

  lemma AddressesDown(argv: seq<int>, argv': seq<int>, ts: seq<seq<Byte>>, n: nat)
    requires Addresses(argv, ts, n + 1) && n < |ts| && argv' == argv[n := PHYS_BASE - |Strings(ts[n..])|]
    ensures Addresses(argv', ts, n)
  {
  }

  lemma SplitDown(buf: seq<Byte>, argv: seq<int>, argv': seq<int>, ts: seq<seq<Byte>>, n: nat, v: int)
    requires Split(buf, argv, ts, n + 1) && argv' == argv[n := v]
    ensures Split(buf, argv', ts, n)
  {
  }

  /** The strings, last word first; each argv[i] becomes its address on the stack. */
  method PushStrings(page: array<Byte>, buf: array<Byte>, argv: array<int>, ghost ts: seq<seq<Byte>>)
    returns (esp: int, totalLen: nat)
    requires page.Length == PGSIZE && page != buf && argv.Length == |ts| && Split(buf[..], argv[..], ts, |ts|)
    requires |Strings(ts)| <= PGSIZE
    modifies page, argv
    ensures totalLen == |Strings(ts)| && esp == PHYS_BASE - totalLen
    ensures Pushed(page[..], old(page[..]), esp - STACK_PAGE, Strings(ts)) && Addresses(argv[..], ts, 0)
  {
    hide Holds, Pushed, Split, Addresses, Strings;
    ghost var was := page[..];
    var i := argv.Length;
    esp, totalLen := PHYS_BASE, 0;
    PushedNone(was, ts, argv[..]);
    while i > 0
      invariant 0 <= i <= |ts| && totalLen == |Strings(ts[i..])| <= |Strings(ts)| && esp == PHYS_BASE - totalLen
      invariant Pushed(page[..], was, esp - STACK_PAGE, Strings(ts[i..]))
      invariant Split(buf[..], argv[..], ts, i) && Addresses(argv[..], ts, i)
    {
      i := i - 1;
      SplitAt(buf[..], argv[..], ts, i);
      StringsDown(ts, i);
      var len := Strlen(buf, argv[i], ts[i]);
      esp := esp - (len + 1);
      totalLen := totalLen + len + 1;
      PushString(page, esp - STACK_PAGE, buf, argv[i], ts[i], was, Strings(ts[i + 1..]));
      ghost var argv0 := argv[..];
      argv[i] := esp;
      SplitDown(buf[..], argv0, argv[..], ts, i, esp);
      AddressesDown(argv0, argv[..], ts, i);
    }
    assert ts[0..] == ts;
  }

  lemma SplitAt(buf: seq<Byte>, argv: seq<int>, ts: seq<seq<Byte>>, i: nat)
    requires Split(buf, argv, ts, i + 1)
    ensures Holds(buf, argv[i], ts[i]) && argv[i] >= 0
  {
  }

  lemma PushedNone(was: seq<Byte>, ts: seq<seq<Byte>>, argv: seq<int>)
    requires |argv| == |ts|
    ensures Strings(ts[|ts|..]) == [] && Pushed(was, was, |was|, []) && Addresses(argv, ts, |ts|)
  {
    assert was[..|was|] + [] == was;
  }

  /** The pointers, last first. */
  method PushPointers(page: array<Byte>, esp0: int, argv: array<int>, ghost ts: seq<seq<Byte>>, ghost was: seq<Byte>,
      ghost top: seq<Byte>)
    returns (esp: int)
    requires page.Length == PGSIZE && argv.Length == |ts| && Addresses(argv[..], ts, 0) && |Strings(ts)| <= PGSIZE
    requires STACK_PAGE + 4 * |ts| <= esp0 && Pushed(page[..], was, esp0 - STACK_PAGE, top)
    modifies page
    ensures esp == esp0 - 4 * |ts| && Pushed(page[..], was, esp - STACK_PAGE, Pointers(ts, PHYS_BASE) + top)
  {
    hide Pushed, Addresses, Strings, Pointers, Bytes4;
    esp := esp0;
    var i := argv.Length;
    ghost var addrs := argv[..];
    PointersNone(ts, top);
    while i > 0
      invariant 0 <= i <= |ts| && esp == esp0 - 4 * (|ts| - i) && argv[..] == addrs
      invariant |Strings(ts[i..])| <= PGSIZE
      invariant Pushed(page[..], was, esp - STACK_PAGE, Pointers(ts[i..], PHYS_BASE) + top)
    {
      i := i - 1;
      AddressAt(addrs, ts, i);
      PointersDown(ts, PHYS_BASE, i);
      StringsDown(ts, i);
      PushWord(page, esp - STACK_PAGE, argv[i], was, Pointers(ts[i + 1..], PHYS_BASE) + top);
      esp := esp - 4;
      assert Bytes4(argv[i]) + (Pointers(ts[i + 1..], PHYS_BASE) + top) == Pointers(ts[i..], PHYS_BASE) + top;
    }
    assert ts[0..] == ts;
  }

  lemma AddressAt(argv: seq<int>, ts: seq<seq<Byte>>, i: nat)
    requires Addresses(argv, ts, 0) && i < |ts|
    ensures |argv| == |ts| && argv[i] == PHYS_BASE - |Strings(ts[i..])|
  {
  }

  lemma PointersNone(ts: seq<seq<Byte>>, top: seq<Byte>)
    ensures Strings(ts[|ts|..]) == [] && Pointers(ts[|ts|..], PHYS_BASE) + top == top
  {
  }

  /** Word alignment leaves the bytes it skips as they were. */
  lemma PushedPad(page: seq<Byte>, was: seq<Byte>, k: int, pad: nat, top: seq<Byte>)
    requires Pushed(page, was, k, top) && pad <= k
    ensures Pushed(page, was, k - pad, was[k - pad..k] + top)
  {
    assert was[..k] == was[..k - pad] + was[k - pad..k];
  }

  /** The words have no zero bytes. */
  lemma {:induction false} TokensZeroFree(s: seq<Byte>)
    requires 0 !in s
    ensures forall t :: t in Tokens(s) ==> 0 !in t
    decreases |s|
  {
    if s != [] {
      if s[0] == SPACE {
        TokensZeroFree(s[1..]);
      } else {
        var n := WordLength(s);
        if n < |s| {
          TokensZeroFree(s[n + 1..]);
          assert Tokens(s) == [s[..n]] + Tokens(s[n + 1..]);
        }
      }
    }
  }

  /** The second half of construct_esp: everything it pushes. */
  method PushAll(page: array<Byte>, buf: array<Byte>, argv: array<int>, ghost ts: seq<seq<Byte>>) returns (esp: int)
    requires page.Length == PGSIZE && page != buf && argv.Length == |ts| && Split(buf[..], argv[..], ts, |ts|)
    requires Used(ts) <= PGSIZE
    modifies page, argv
    ensures esp == PHYS_BASE - Used(ts) && page[..] == Printed(old(page[..]), ts)
  {
    hide Holds, Strings, Pointers, Bytes4, Padding, Padded, Vector, Split, Addresses, Pushed, Printed;
    ghost var was := page[..];
    PaddingIs(ts);
    var totalLen;
    esp, totalLen := PushStrings(page, buf, argv, ts);
    var pad := if totalLen % 4 != 0 then 4 - totalLen % 4 else 0;
    PushedPad(page[..], was, esp - STACK_PAGE, pad, Strings(ts));
    PaddedIs(was, ts);
    esp := esp - pad;
    PushWord(page, esp - STACK_PAGE, 0, was, Padded(was, ts));
    esp := esp - 4;
    esp := PushPointers(page, esp, argv, ts, was, Bytes4(0) + Padded(was, ts));
    VectorIs(was, ts);
    esp := PushFrame(page, esp, argv.Length, was, Vector(was, ts));
    PushedIsPrinted(page[..], was, ts);
  }

  /** argv, argc and the return address. */
  method PushFrame(page: array<Byte>, argv: int, argc: nat, ghost was: seq<Byte>, ghost top: seq<Byte>)
      returns (esp: int)
    requires page.Length == PGSIZE && STACK_PAGE + 12 <= argv < PHYS_BASE && argc < WORD
    requires Pushed(page[..], was, argv - STACK_PAGE, top)
    modifies page
    ensures esp == argv - 12
    ensures Pushed(page[..], was, esp - STACK_PAGE, Bytes4(0) + (Bytes4(argc) + (Bytes4(argv) + top)))
  {
    hide Bytes4, Pushed;
    esp := argv - 4;
    PushWord(page, esp + 4 - STACK_PAGE, esp + 4, was, top);
    esp := esp - 4;
    PushWord(page, esp + 4 - STACK_PAGE, argc, was, Bytes4(argv) + top);
    esp := esp - 4;
    PushWord(page, esp + 4 - STACK_PAGE, 0, was, Bytes4(argc) + (Bytes4(argv) + top));
  }

  /** construct_esp, on the one stack page: the stack holds the words of the
      command line, the pointer is aligned, and nothing below it is written. */
  method ConstructEsp(fileName: array<Byte>, page: array<Byte>, ghost s: seq<Byte>) returns (esp: int)
    requires Holds(fileName[..], 0, s) && |s| < 256 && page.Length == PGSIZE && page != fileName
    modifies page
    ensures esp == PHYS_BASE - Used(Tokens(s)) && esp % 4 == 0 && STACK_PAGE <= esp
    ensures Used(Tokens(s)) <= PGSIZE && page[..] == Printed(old(page[..]), Tokens(s))
    ensures page[..esp - STACK_PAGE] == old(page[..esp - STACK_PAGE])
    ensures ReadArgs(page[..], esp) == Tokens(s)
  {
    hide Holds, Tokens, Strings, Split, Printed, ReadArgs, Used;
    ghost var was, ts := page[..], Tokens(s);
    UsedFits(s);
    HoldsZeroFree(fileName[..], s);
    var stored := new Byte[256];
    Strlcpy(stored, 0, fileName, 0, s);
    CopyHolds(stored[..], fileName[..], s);
    var argc := CountWords(stored, s);
    var argv := new int[argc];
    Strlcpy(stored, 0, fileName, 0, s);
    CopyHolds(stored[..], fileName[..], s);
    SplitWords(stored, argv, argc, s);
    esp := PushAll(page, stored, argv, ts);
    TokensZeroFree(s);
    RoundTrip(was, ts);
    PrintedIs(was, ts);
  }

  lemma HoldsZeroFree(buf: seq<Byte>, s: seq<Byte>)
    requires Holds(buf, 0, s)
    ensures 0 !in s
  {
  }

  lemma PaddingIs(ts: seq<seq<Byte>>)
    ensures Padding(ts) == if |Strings(ts)| % 4 != 0 then 4 - |Strings(ts)| % 4 else 0
  {
  }

  lemma CopyHolds(dst: seq<Byte>, src: seq<Byte>, s: seq<Byte>)
    requires Holds(src, 0, s) && |s| < |dst| && s + [0] <= dst
    ensures Holds(dst, 0, s)
  {
  }

  lemma PushedIsPrinted(page: seq<Byte>, was: seq<Byte>, ts: seq<seq<Byte>>)
    requires |was| == PGSIZE && Used(ts) <= PGSIZE
    requires Pushed(page, was, PGSIZE - Used(ts), Bytes4(0) + (Bytes4(|ts|) + (Bytes4(ArgvAt(ts)) + Vector(was, ts))))
    ensures page == Printed(was, ts)
  {
  }
}
