/** kern/syscall/proc_syscalls.c: how execv lays out the arguments for the new
    program's stack. */
module ExecArgs {
  import opened Common
  import Words

  type Str = seq<byte>

  const ARG_MAX: nat := 65536

  /** No accepted argument list has a longer block than this (BlockBound). */
  const BLOCK_MAX: nat := 8 * ARG_MAX + 4

  predicate NoNul(s: Str) { forall i :: 0 <= i < |s| ==> s[i] != 0 }
  predicate NoNuls(args: seq<Str>) { forall k :: 0 <= k < |args| ==> NoNul(args[k]) }

  /** The caller's argv as copyin and copyinstr see it: strings, pointers that
      fault, and a vector that ends in NULL or in unreadable memory. */
  datatype Arg = Arg(s: Str) | BadPointer
  datatype UserArgv = UserArgv(args: seq<Arg>, terminated: bool)

  datatype Error = EFAULT | ENAMETOOLONG | E2BIG
  datatype Scanned = Good(args: seq<Str>) | Bad(e: Error)

  /** The strings of a readable argv, or the first error met walking it. `total`
      counts the bytes of the strings so far, their NULs included. */
  function Scan(u: UserArgv, i: nat, total: nat): Scanned
    requires i <= |u.args|
    decreases |u.args| - i
  {
    if i == |u.args| then if u.terminated then Good([]) else Bad(EFAULT)
    else if u.args[i] == BadPointer then Bad(EFAULT)
    else if |u.args[i].s| + 1 > ARG_MAX then Bad(ENAMETOOLONG)
    else if total + |u.args[i].s| + 1 > ARG_MAX then Bad(E2BIG)
    else
      var rest := Scan(u, i + 1, total + |u.args[i].s| + 1);
      if rest.Bad? then rest else Good([u.args[i].s] + rest.args)
  }

  /** The bytes of the first k strings, NULs included. */
  function StringBytes(u: UserArgv, k: nat): nat
    requires k <= |u.args| && forall i :: 0 <= i < k ==> u.args[i].Arg?
  {
    if k == 0 then 0 else StringBytes(u, k - 1) + |u.args[k - 1].s| + 1
  }

  /** The first k arguments can be read, none is longer than ARG_MAX with its NUL,
      and neither are they together. */
  predicate Fine(u: UserArgv, k: nat) {
    k <= |u.args| && (forall i :: 0 <= i < k ==> u.args[i].Arg? && |u.args[i].s| + 1 <= ARG_MAX) && StringBytes(u, k) <= ARG_MAX
  }

  /** What copy_args accepts, and what it answers otherwise: EFAULT for the first
      pointer it cannot read, ENAMETOOLONG for a string that is too long by itself,
      E2BIG when the total becomes too long, whichever comes first. */
  lemma ScanDecides(u: UserArgv) returns (k: nat)
    ensures k <= |u.args| && Fine(u, k)
    ensures Scan(u, 0, 0).Good? <==> k == |u.args| && u.terminated
    ensures Scan(u, 0, 0).Good? ==>
      |Scan(u, 0, 0).args| == |u.args| && forall i :: 0 <= i < |u.args| ==> u.args[i] == Arg(Scan(u, 0, 0).args[i])
    ensures k == |u.args| && !u.terminated ==> Scan(u, 0, 0) == Bad(EFAULT)
    ensures k < |u.args| ==>
      Scan(u, 0, 0) == Bad(if u.args[k] == BadPointer then EFAULT
                           else if |u.args[k].s| + 1 > ARG_MAX then ENAMETOOLONG else E2BIG) &&
      (u.args[k].Arg? ==> !Fine(u, k + 1))
  {
    k := ScanFrom(u, 0);
  }

  lemma {:induction false} ScanFrom(u: UserArgv, i: nat) returns (k: nat)
    requires i <= |u.args| && Fine(u, i)
    ensures i <= k <= |u.args| && Fine(u, k)
    ensures var r := Scan(u, i, StringBytes(u, i));
      (r.Good? <==> k == |u.args| && u.terminated) &&
      (r.Good? ==> |r.args| == |u.args| - i && forall j :: i <= j < |u.args| ==> u.args[j] == Arg(r.args[j - i])) &&
      (k == |u.args| && !u.terminated ==> r == Bad(EFAULT)) &&
      (k < |u.args| ==>
        r == Bad(if u.args[k] == BadPointer then EFAULT
                 else if |u.args[k].s| + 1 > ARG_MAX then ENAMETOOLONG else E2BIG) &&
        (u.args[k].Arg? ==> !Fine(u, k + 1)))
    decreases |u.args| - i
  {
    k := i;
    if i < |u.args| && u.args[i].Arg? && Fine(u, i + 1) {
      k := ScanFrom(u, i + 1);
    }
  }

  // ---------------------------------------------------------- the layout

  /** get_aligned_len: room for a string and its NUL, in whole words. */
  function AlignedLen(s: Str): (n: nat)
    ensures |s| + 1 <= n < |s| + 5 && n % 4 == 0
  {
    var len := |s| + 1;
    if len % 4 == 0 then len else len + (4 - len % 4)
  }

  function Lengths(args: seq<Str>): nat {
    if args == [] then 0 else Lengths(args[..|args| - 1]) + AlignedLen(args[|args| - 1])
  }

  /** Where string i starts: after the pointers, their NULL and i strings. */
  function Off(args: seq<Str>, i: nat): nat
    requires i <= |args|
  {
    4 * (|args| + 1) + Lengths(args[..i])
  }

  /** The size of the whole block. */
  function BlockLen(args: seq<Str>): nat { Off(args, |args|) }

  lemma OffStep(args: seq<Str>, i: nat)
    requires i < |args|
    ensures Off(args, i + 1) == Off(args, i) + AlignedLen(args[i])
  {
    assert args[..i + 1][..i] == args[..i];
  }

  lemma {:induction false} OffMono(args: seq<Str>, i: nat, j: nat)
    requires i <= j <= |args|
    ensures Off(args, i) <= Off(args, j)
    ensures i < j ==> Off(args, i) + AlignedLen(args[i]) <= Off(args, j)
    ensures Off(args, i) % 4 == 0
    decreases j
  {
    if i < j {
      OffMono(args, i, j - 1);
      OffStep(args, j - 1);
      if i == j - 1 { OffStep(args, i); }
    } else if j > 0 {
      OffMono(args, i - 1, j - 1);
      OffStep(args, j - 1);
    }
  }

  /** A 32-bit word at byte position k, most significant byte first. */
  function WordAt(b: seq<byte>, k: nat): nat
    requires k + 4 <= |b|
  {
    ((b[k] as int * 256 + b[k + 1]) * 256 + b[k + 2]) * 256 + b[k + 3]
  }

  function Bytes(x: Words.word): (b: seq<byte>)
    ensures |b| == 4
  {
    [x / 0x100_0000, x / 0x1_0000 % 256, x / 256 % 256, x % 256]
  }

  lemma WordRoundTrip(x: Words.word)
    ensures WordAt(Bytes(x), 0) == x
  {
    var y: int, z: int, w: int := x / 256, x / 0x1_0000, x / 0x100_0000;
    assert x == y * 256 + x % 256;
    assert y == z * 256 + y % 256;
    assert z == w * 256 + z % 256;
  }

  /** b[off..] starts with string s, its NUL and NUL padding to a whole word. */
  predicate Holds(b: seq<byte>, off: nat, s: Str) {
    off + AlignedLen(s) <= |b| && b[off..off + |s|] == s &&
    forall k :: off + |s| <= k < off + AlignedLen(s) ==> b[k] == 0
  }

  /** The block for args, with pointers relative to base. */
  ghost predicate Layout(b: seq<byte>, args: seq<Str>, base: nat) {
    |b| >= BlockLen(args) &&
    (forall i :: 0 <= i < |args| ==> PointerOk(b, args, base, i)) &&
    (forall i :: 0 <= i < |args| ==> Holds(b, Off(args, i), args[i])) &&
    4 * |args| + 4 <= |b| && WordAt(b, 4 * |args|) == 0
  }

  predicate PointerOk(b: seq<byte>, args: seq<Str>, base: nat, i: nat)
    requires i < |args|
  {
    4 * i + 4 <= |b| && WordAt(b, 4 * i) == base + Off(args, i)
  }

  // ----------------------------------------------- what the program reads

  /** The string at b[off..], up to its NUL. */
  function ReadString(b: seq<byte>, off: nat): Str
    decreases |b| - off
  {
    if off >= |b| || b[off] == 0 then [] else [b[off]] + ReadString(b, off + 1)
  }

  /** The argv vector at the start of block b, which lies at address base. */
  function ReadArgv(b: seq<byte>, base: nat, i: nat): seq<Str>
    decreases |b| - 4 * i
  {
    if 4 * i + 4 > |b| || WordAt(b, 4 * i) == 0 || WordAt(b, 4 * i) < base then []
    else [ReadString(b, WordAt(b, 4 * i) - base)] + ReadArgv(b, base, i + 1)
  }

  lemma {:induction false} ReadBack(b: seq<byte>, off: nat, s: Str)
    requires NoNul(s) && off + |s| < |b| && b[off..off + |s|] == s && b[off + |s|] == 0
    ensures ReadString(b, off) == s
    decreases |s|
  {
    if s != [] {
      assert b[off] == b[off..off + |s|][0] == s[0];
      assert b[off + 1..off + 1 + |s[1..]|] == s[1..];
      ReadBack(b, off + 1, s[1..]);
      assert s == [s[0]] + s[1..];
    }
  }

  lemma ReadArgvStep(b: seq<byte>, base: nat, i: nat, off: nat)
    requires 4 * i + 4 <= |b| && WordAt(b, 4 * i) == base + off && off > 0
    ensures ReadArgv(b, base, i) == [ReadString(b, off)] + ReadArgv(b, base, i + 1)
  {}

  /** The program reads from the block exactly the strings that went into it. */
  lemma {:induction false} ReadArgvFrom(b: seq<byte>, args: seq<Str>, base: nat, i: nat)
    requires Layout(b, args, base) && i <= |args| && NoNuls(args)
    ensures ReadArgv(b, base, i) == args[i..]
    decreases |args| - i
  {
    if i < |args| {
      ReadArgvOne(b, args, base, i);
      ReadArgvFrom(b, args, base, i + 1);
      SuffixStep(args, i);
    } else {
      ReadArgvEnd(b, base, i);
    }
  }

  lemma SuffixStep(args: seq<Str>, i: nat)
    requires i < |args|
    ensures args[i..] == [args[i]] + args[i + 1..]
  {}

  lemma ReadArgvEnd(b: seq<byte>, base: nat, i: nat)
    requires 4 * i + 4 <= |b| && WordAt(b, 4 * i) == 0
    ensures ReadArgv(b, base, i) == []
  {}

  lemma ReadArgvOne(b: seq<byte>, args: seq<Str>, base: nat, i: nat)
    requires i < |args| && PointerOk(b, args, base, i) && Holds(b, Off(args, i), args[i]) && NoNul(args[i])
    ensures ReadArgv(b, base, i) == [args[i]] + ReadArgv(b, base, i + 1)
  {
    ReadBack(b, Off(args, i), args[i]);
    ReadArgvStep(b, base, i, Off(args, i));
  }

  // --------------------------------------------------------- the two passes

  datatype Sizes = Sizes(argc: nat, buflen: nat) | SizeError(e: Error)

  /** The first loop of copy_args. The length it adds up is that of the block. */
  method Measure(u: UserArgv) returns (r: Sizes)
    ensures match Scan(u, 0, 0)
            case Bad(e) => r == SizeError(e)
            case Good(args) => r == Sizes(|args|, BlockLen(args))
  {
    var i: nat, len: nat, total: nat := 0, 0, 0;
    ghost var seen: seq<Str> := [];
    while i < |u.args|
      invariant 0 <= i <= |u.args| && |seen| == i
      invariant len == Lengths(seen) + 4 * i
      invariant Scan(u, 0, 0) == Prepend(seen, Scan(u, i, total))
    {
      if u.args[i] == BadPointer { return SizeError(EFAULT); }
      var karg := u.args[i].s;
      if |karg| + 1 > ARG_MAX { return SizeError(ENAMETOOLONG); }
      len := len + AlignedLen(karg) + 4;
      total := total + |karg| + 1;
      if total > ARG_MAX { return SizeError(E2BIG); }
      PrependStep(seen, karg, Scan(u, i + 1, total));
      assert (seen + [karg])[..i] == seen;
      seen := seen + [karg];
      i := i + 1;
    }
    if !u.terminated { return SizeError(EFAULT); }
    len := len + 4;
    assert seen + [] == seen && seen[..i] == seen;
    r := Sizes(i, len);
  }

  ghost function Prepend(seen: seq<Str>, r: Scanned): Scanned {
    if r.Bad? then r else Good(seen + r.args)
  }

  lemma PrependStep(seen: seq<Str>, s: Str, r: Scanned)
    ensures Prepend(seen, if r.Bad? then r else Good([s] + r.args)) == Prepend(seen + [s], r)
  {}

  predicate Between(lo: int, k: int, hi: int) { lo <= k < hi }

  /** The indices from lo up to hi. */
  ghost function Range(lo: int, hi: int): set<int> { set k | lo <= k < hi && Between(lo, k, hi) }

  lemma RangeJoin(lo: int, mid: int, hi: int)
    requires lo <= mid <= hi
    ensures Range(lo, mid) + Range(mid, hi) == Range(lo, hi)
  {}

  /** memcpy to mem[at..]. `stored` collects the indices stored to. */
  method CopyBytes(mem: array<byte>, at: nat, src: seq<byte>) returns (ghost stored: set<int>)
    requires at + |src| <= mem.Length
    modifies mem
    ensures mem[at..at + |src|] == src
    ensures SameOutside(old(mem[..]), mem[..], at, |src|)
    ensures stored == Range(at, at + |src|)
  {
    var k := 0;
    stored := {};
    while k < |src|
      invariant 0 <= k <= |src| && stored == Range(at, at + k)
      invariant forall j :: 0 <= j < k ==> mem[at + j] == src[j]
      invariant SameOutside(old(mem[..]), mem[..], at, |src|)
    {
      mem[at + k] := src[k];
      stored := stored + {at + k};
      k := k + 1;
    }
  }

  /** align_arg: the string with its NUL and padding, ready to copy. */
  function Padded(s: Str): (p: Str)
    ensures |p| == AlignedLen(s)
  {
    s + seq(AlignedLen(s) - |s|, _ => 0)
  }

  /** Pointers and strings 0..i-1 are in place. */
  ghost predicate Written(b: seq<byte>, args: seq<Str>, i: nat)
    requires i <= |args|
  {
    |b| >= BlockLen(args) &&
    (forall k :: 0 <= k < i ==> PointerOk(b, args, 0, k)) &&
    (forall k :: 0 <= k < i ==> Holds(b, Off(args, k), args[k]))
  }

  lemma PointerFrame(b: seq<byte>, b': seq<byte>, args: seq<Str>, base: nat, k: nat, at: nat, n: nat)
    requires k < |args| && PointerOk(b, args, base, k) && SameOutside(b, b', at, n)
    requires 4 * k + 4 <= at || at + n <= 4 * k
    ensures PointerOk(b', args, base, k)
  {}

  lemma WordFrame(b: seq<byte>, b': seq<byte>, k: nat)
    requires k + 4 <= |b| && |b'| == |b| && forall j :: k <= j < k + 4 ==> b'[j] == b[j]
    ensures WordAt(b', k) == WordAt(b, k)
  {}

  lemma HoldsFrame(b: seq<byte>, b': seq<byte>, off: nat, s: Str, at: nat, n: nat)
    requires Holds(b, off, s) && SameOutside(b, b', at, n)
    requires off + AlignedLen(s) <= at || at + n <= off
    ensures Holds(b', off, s)
  {}

  /** Storing pointer i disturbs nothing written so far. */
  lemma PointerStored(b: seq<byte>, b': seq<byte>, args: seq<Str>, i: nat)
    requires i < |args| && Written(b, args, i) && SameOutside(b, b', 4 * i, 4)
    ensures Written(b', args, i)
  {
    forall k | 0 <= k < i ensures PointerOk(b', args, 0, k) && Holds(b', Off(args, k), args[k]) {
      PointerFrame(b, b', args, 0, k, 4 * i, 4);
      HoldsFrame(b, b', Off(args, k), args[k], 4 * i, 4);
    }
  }

  /** Nor does copying string i; with it, round i is complete. */
  lemma StringStored(b: seq<byte>, b': seq<byte>, args: seq<Str>, i: nat)
    requires i < |args| && Written(b, args, i) && PointerOk(b, args, 0, i)
    requires SameOutside(b, b', Off(args, i), AlignedLen(args[i])) && Holds(b', Off(args, i), args[i])
    ensures Written(b', args, i + 1)
  {
    forall k | 0 <= k <= i ensures PointerOk(b', args, 0, k) {
      PointerFrame(b, b', args, 0, k, Off(args, i), AlignedLen(args[i]));
    }
    forall k | 0 <= k < i ensures Holds(b', Off(args, k), args[k]) {
      OffMono(args, k, i);
      HoldsFrame(b, b', Off(args, k), args[k], Off(args, i), AlignedLen(args[i]));
    }
  }

  lemma WordStored(b: seq<byte>, at: nat, x: Words.word)
    requires at + 4 <= |b| && b[at..at + 4] == Bytes(x)
    ensures WordAt(b, at) == x
  {
    WordRoundTrip(x);
    var w := b[at..at + 4];
    assert b[at] == w[0] && b[at + 1] == w[1] && b[at + 2] == w[2] && b[at + 3] == w[3];
  }

  lemma PaddedHolds(b: seq<byte>, off: nat, s: Str)
    requires off + AlignedLen(s) <= |b| && b[off..off + AlignedLen(s)] == Padded(s)
    ensures Holds(b, off, s)
  {
    forall j | 0 <= j < AlignedLen(s) ensures b[off + j] == Padded(s)[j] {
      assert b[off..off + AlignedLen(s)][j] == Padded(s)[j];
    }
    assert b[off..off + |s|] == b[off..off + AlignedLen(s)][..|s|] == s;
    forall k | off + |s| <= k < off + AlignedLen(s) ensures b[k] == 0 {
      assert b[off + (k - off)] == Padded(s)[k - off];
    }
  }

  /** `*p_begin = offset` in round i. */
  method StorePointer(args: seq<Str>, i: nat, mem: array<byte>, offset: nat) returns (ghost stored: set<int>)
    requires i < |args| && BlockLen(args) <= mem.Length < Words.W
    requires offset == Off(args, i) && Written(mem[..], args, i)
    modifies mem
    ensures Written(mem[..], args, i) && PointerOk(mem[..], args, 0, i)
    ensures SameOutside(old(mem[..]), mem[..], 4 * i, 4) && stored == Range(4 * i, 4 * i + 4)
  {
    OffMono(args, i, |args|);
    stored := CopyBytes(mem, 4 * i, Bytes(offset));
    assert mem[..][4 * i..4 * i + 4] == Bytes(offset);
    PointerStored(old(mem[..]), mem[..], args, i);
    WordStored(mem[..], 4 * i, offset);
  }

  /** The memcpy of string i. */
  method StoreString(args: seq<Str>, i: nat, mem: array<byte>, offset: nat) returns (ghost stored: set<int>)
    requires i < |args| && BlockLen(args) <= mem.Length < Words.W
    requires offset == Off(args, i) && Written(mem[..], args, i) && PointerOk(mem[..], args, 0, i)
    modifies mem
    ensures Written(mem[..], args, i + 1)
    ensures SameOutside(old(mem[..]), mem[..], offset, AlignedLen(args[i])) && stored == Range(offset, Off(args, i + 1))
  {
    OffStep(args, i);
    OffMono(args, i + 1, |args|);
    stored := CopyBytes(mem, offset, Padded(args[i]));
    assert mem[..][offset..offset + AlignedLen(args[i])] == Padded(args[i]);
    PaddedHolds(mem[..], offset, args[i]);
    StringStored(old(mem[..]), mem[..], args, i);
  }

  /** One round of the second loop of copy_args. */
  method FillOne(args: seq<Str>, i: nat, mem: array<byte>, offset: nat) returns (ghost stored: set<int>)
    requires i < |args| && BlockLen(args) <= mem.Length < Words.W
    requires offset == Off(args, i) && Written(mem[..], args, i)
    modifies mem
    ensures Written(mem[..], args, i + 1) && SameOutside(old(mem[..]), mem[..], 0, BlockLen(args))
    ensures stored == Range(4 * i, 4 * i + 4) + Range(offset, Off(args, i + 1))
  {
    OffStep(args, i);
    OffMono(args, i + 1, |args|);
    ghost var stored1 := StorePointer(args, i, mem, offset);
    ghost var stored2 := StoreString(args, i, mem, offset);
    stored := stored1 + stored2;
  }

  /** The second loop of copy_args: writes the pointers, as offsets into the
      block, and the strings. */
  method FillRounds(args: seq<Str>, mem: array<byte>) returns (ghost stored: set<int>)
    requires BlockLen(args) <= mem.Length < Words.W
    modifies mem
    ensures Written(mem[..], args, |args|) && SameOutside(old(mem[..]), mem[..], 0, BlockLen(args))
    ensures stored == Range(0, 4 * |args|) + Range(4 * |args| + 4, BlockLen(args))
  {
    var i, nLast := 0, 0;
    var lastOffset := (|args| + 1) * 4;
    ghost var start := lastOffset;
    stored := {};
    while i < |args|
      invariant 0 <= i <= |args|
      invariant start <= lastOffset + nLast == Off(args, i)
      invariant Written(mem[..], args, i) && SameOutside(old(mem[..]), mem[..], 0, BlockLen(args))
      invariant stored == Range(0, 4 * i) + Range(start, Off(args, i))
    {
      OffStep(args, i);
      var offset := lastOffset + nLast;
      ghost var more := FillOne(args, i, mem, offset);
      StoredMore(i, start, offset, Off(args, i + 1));
      stored := stored + more;
      nLast := AlignedLen(args[i]);
      lastOffset := offset;
      i := i + 1;
    }
  }

  /** The second pass of copy_args. It never looks at the size of kargbuf, which
      is the first ARG_MAX bytes of mem: it stores to every byte of the block,
      wherever that ends, and to no other. */
  method Fill(args: seq<Str>, mem: array<byte>) returns (ghost stored: set<int>)
    requires BlockLen(args) <= mem.Length < Words.W
    modifies mem
    ensures Layout(mem[..], args, 0) && SameOutside(old(mem[..]), mem[..], 0, BlockLen(args))
    ensures stored == Range(0, BlockLen(args))
  {
    stored := FillRounds(args, mem);
    ghost var b, n := mem[..], 4 * |args|;
    OffMono(args, 0, |args|);
    ghost var last := CopyBytes(mem, 4 * |args|, Bytes(0));
    RangeJoin(0, n, n + 4);
    RangeJoin(0, n + 4, BlockLen(args));
    stored := stored + last;
    assert mem[..][n..n + 4] == Bytes(0);
    NullStored(b, mem[..], args);
  }

  /** The indices stored to after round i. */
  lemma StoredMore(i: nat, start: nat, offset: nat, next: nat)
    requires start <= offset <= next
    ensures (Range(0, 4 * i) + Range(start, offset)) + (Range(4 * i, 4 * i + 4) + Range(offset, next))
            == Range(0, 4 * (i + 1)) + Range(start, next)
  {
    RangeJoin(0, 4 * i, 4 * i + 4);
    RangeJoin(start, offset, next);
  }

  lemma NullStored(b: seq<byte>, b': seq<byte>, args: seq<Str>)
    requires Written(b, args, |args|) && SameOutside(b, b', 4 * |args|, 4) && 4 * |args| + 4 <= |b|
    requires b'[4 * |args|..4 * |args| + 4] == Bytes(0)
    ensures Layout(b', args, 0)
  {
    WordStored(b', 4 * |args|, 0);
    forall k | 0 <= k < |args| ensures PointerOk(b', args, 0, k) && Holds(b', Off(args, k), args[k]) {
      PointerFrame(b, b', args, 0, k, 4 * |args|, 4);
      HoldsFrame(b, b', Off(args, k), args[k], 4 * |args|, 4);
    }
  }

  /** copy_args compares the total of the strings with ARG_MAX, not the size of
      the block, which has the pointers and the padding as well. */
  lemma {:induction false} BlockBound(u: UserArgv, i: nat, total: nat)
    requires i <= |u.args| && total <= ARG_MAX
    ensures var r := Scan(u, i, total); r.Good? ==> 4 * |r.args| + Lengths(r.args) <= 8 * (ARG_MAX - total)
    decreases |u.args| - i
  {
    if i < |u.args| && u.args[i].Arg? && total + |u.args[i].s| + 1 <= ARG_MAX {
      var s := u.args[i].s;
      BlockBound(u, i + 1, total + |s| + 1);
      var rest := Scan(u, i + 1, total + |s| + 1);
      if rest.Good? { LengthsCons(s, rest.args); }
    }
  }

  lemma {:induction false} LengthsCons(s: Str, args: seq<Str>)
    ensures Lengths([s] + args) == AlignedLen(s) + Lengths(args)
    decreases |args|
  {
    var all := [s] + args;
    if args == [] {
      assert all[..|all| - 1] == [];
    } else {
      assert all[..|all| - 1] == [s] + args[..|args| - 1];
      LengthsCons(s, args[..|args| - 1]);
    }
  }

  datatype Copied = Copied(argc: nat, buflen: nat) | CopyError(e: Error)

  /** copy_args, with mem the kernel's memory from kargbuf on; kargbuf itself is
      its first ARG_MAX bytes. For every argv that passes the checks the block is
      laid out at mem, and a store falls outside kargbuf if and only if the block
      is longer than ARG_MAX. */
  method CopyArgs(u: UserArgv, mem: array<byte>) returns (r: Copied, ghost stored: set<int>)
    requires BLOCK_MAX <= mem.Length < Words.W
    modifies mem
    ensures match Scan(u, 0, 0)
            case Bad(e) => r == CopyError(e) && mem[..] == old(mem[..]) && stored == {}
            case Good(args) =>
              r == Copied(|args|, BlockLen(args)) && BlockLen(args) <= BLOCK_MAX &&
              Layout(mem[..], args, 0) && SameOutside(old(mem[..]), mem[..], 0, BlockLen(args)) &&
              stored == Range(0, BlockLen(args)) &&
              ((exists k :: k in stored && k >= ARG_MAX) <==> BlockLen(args) > ARG_MAX)
  {
    var m := Measure(u);
    stored := {};
    if m.SizeError? { return CopyError(m.e), stored; }
    var args := Scan(u, 0, 0).args;
    BlockBound(u, 0, 0);
    assert args[..|args|] == args;
    stored := Fill(args, mem);
    if BlockLen(args) > ARG_MAX { assert BlockLen(args) - 1 in stored; }
    r := Copied(m.argc, m.buflen);
  }

  /** An argv of n empty strings, for any n up to ARG_MAX, passes the checks; its
      block has 8 * n + 4 bytes, so 8192 of them are enough for an overrun. */
  lemma OverrunExample(n: nat)
    requires n <= ARG_MAX
    ensures var r := Scan(Empties(n), 0, 0); r.Good? && BlockLen(r.args) == 8 * n + 4
  {
    ScanEmpties(Empties(n), 0, 0);
    var args := Scan(Empties(n), 0, 0).args;
    EmptyLengths(args);
    assert args[..|args|] == args;
  }

  function Empties(n: nat): UserArgv { UserArgv(seq(n, _ => Arg([])), true) }

  /** copy_args given 16384 empty strings stores past the end of kargbuf. */
  method CopyEmpties(mem: array<byte>) returns (r: Copied, ghost stored: set<int>)
    requires BLOCK_MAX <= mem.Length < Words.W
    modifies mem
    ensures r == Copied(16384, 131076) && stored == Range(0, 131076)
    ensures 131075 in stored && 131075 >= ARG_MAX && mem[131075] == 0
    ensures SameOutside(old(mem[..]), mem[..], 0, 131076)
  {
    OverrunExample(16384);
    ghost var args := Scan(Empties(16384), 0, 0).args;
    r, stored := CopyArgs(Empties(16384), mem);
    ScanEmpties(Empties(16384), 0, 0);
    LastByte(mem[..], args);
  }

  /** The last byte of a block is a NUL. */
  lemma LastByte(b: seq<byte>, args: seq<Str>)
    requires Layout(b, args, 0)
    ensures BlockLen(args) >= 4 && b[BlockLen(args) - 1] == 0
  {
    var n := |args|;
    OffMono(args, 0, n);
    if n == 0 {
      assert WordAt(b, 0) == 0;
    } else {
      OffStep(args, n - 1);
      assert Holds(b, Off(args, n - 1), args[n - 1]);
    }
  }

  method AdjustOne(kargbuf: array<byte>, i: nat, stackPtr: nat, ghost args: seq<Str>)
    requires i < |args| && PointerOk(kargbuf[..], args, 0, i) && stackPtr + BlockLen(args) < Words.W
    modifies kargbuf
    ensures PointerOk(kargbuf[..], args, stackPtr, i) && SameOutside(old(kargbuf[..]), kargbuf[..], 4 * i, 4)
  {
    OffMono(args, i, |args|);
    var newOffset := Words.Word(stackPtr + WordAt(kargbuf[..], 4 * i));
    ghost var _ := CopyBytes(kargbuf, 4 * i, Bytes(newOffset));
    assert kargbuf[..][4 * i..4 * i + 4] == Bytes(newOffset);
    WordStored(kargbuf[..], 4 * i, newOffset);
  }

  /** adjust_kargbuf: turns offsets into addresses. */
  method Adjust(kargbuf: array<byte>, nParams: nat, stackPtr: nat, ghost args: seq<Str>)
    requires nParams == |args| && Layout(kargbuf[..], args, 0) && stackPtr + BlockLen(args) < Words.W
    modifies kargbuf
    ensures Layout(kargbuf[..], args, stackPtr)
  {
    var i := 0;
    ghost var b0 := kargbuf[..];
    while i < nParams
      invariant 0 <= i <= |args|
      invariant AdjustedTo(b0, kargbuf[..], args, stackPtr, i)
    {
      ghost var b := kargbuf[..];
      AdjustOne(kargbuf, i, stackPtr, args);
      Adjusted(b0, b, kargbuf[..], args, stackPtr, i);
      i := i + 1;
    }
    AdjustDone(b0, kargbuf[..], args, stackPtr);
  }

  /** Pointers 0..i-1 are addresses, the others still offsets, and nothing but
      pointers has changed since b0. */
  ghost predicate AdjustedTo(b0: seq<byte>, b: seq<byte>, args: seq<Str>, base: nat, i: nat) {
    SameOutside(b0, b, 0, 4 * |args|) &&
    (forall k :: 0 <= k < i && k < |args| ==> PointerOk(b, args, base, k)) &&
    (forall k :: i <= k < |args| ==> PointerOk(b, args, 0, k))
  }

  lemma Adjusted(b0: seq<byte>, b: seq<byte>, b': seq<byte>, args: seq<Str>, base: nat, i: nat)
    requires i < |args| && AdjustedTo(b0, b, args, base, i)
    requires SameOutside(b, b', 4 * i, 4) && PointerOk(b', args, base, i)
    ensures AdjustedTo(b0, b', args, base, i + 1)
  {
    forall k | 0 <= k < i ensures PointerOk(b', args, base, k) { PointerFrame(b, b', args, base, k, 4 * i, 4); }
    forall k | i < k < |args| ensures PointerOk(b', args, 0, k) { PointerFrame(b, b', args, 0, k, 4 * i, 4); }
  }

  lemma AdjustDone(b: seq<byte>, b': seq<byte>, args: seq<Str>, base: nat)
    requires Layout(b, args, 0) && AdjustedTo(b, b', args, base, |args|)
    ensures Layout(b', args, base)
  {
    forall k | 0 <= k < |args| ensures Holds(b', Off(args, k), args[k]) {
      HoldsFrame(b, b', Off(args, k), args[k], 0, 4 * |args|);
    }
    WordFrame(b, b', 4 * |args|);
  }

  lemma {:induction false} ScanNoNul(u: UserArgv, i: nat, total: nat)
    requires i <= |u.args| && forall k :: 0 <= k < |u.args| && u.args[k].Arg? ==> NoNul(u.args[k].s)
    ensures Scan(u, i, total).Good? ==> NoNuls(Scan(u, i, total).args)
    decreases |u.args| - i
  {
    if i < |u.args| && u.args[i].Arg? {
      ScanNoNul(u, i + 1, total + |u.args[i].s| + 1);
    }
  }

  /** The part of the buffer that is copied out holds the whole layout. */
  lemma LayoutPrefix(b: seq<byte>, args: seq<Str>, base: nat)
    requires Layout(b, args, base)
    ensures Layout(b[..BlockLen(args)], args, base)
  {
    var c := b[..BlockLen(args)];
    OffMono(args, 0, |args|);
    forall i | 0 <= i < |args| ensures PointerOk(c, args, base, i) && Holds(c, Off(args, i), args[i]) {
      assert PointerOk(b, args, base, i) && Holds(b, Off(args, i), args[i]);
      OffMono(args, i, |args|);
      assert c[Off(args, i)..Off(args, i) + |args[i]|] == b[Off(args, i)..Off(args, i) + |args[i]|];
    }
  }

  // -------------------------------------------------------------- main result

  /** The argv that enter_new_process is given. */
  function ArgvPassed(argc: nat, argvptr: nat): nat { if argc != 0 then argvptr else 0 }

  /** What a program finds that follows argv, if the block is at base: nothing if
      argv is not the block's address. */
  function SeenThrough(argv: nat, base: nat, block: seq<byte>): Option<seq<Str>> {
    if argv == base then Some(ReadArgv(block, base, 0)) else None
  }

  /** The new program sees the argument vector if and only if it is not empty. */
  lemma SeenIffNotEmpty(b: seq<byte>, args: seq<Str>, base: nat)
    requires Layout(b, args, base) && base > 0 && NoNuls(args)
    ensures ReadArgv(b, base, 0) == args
    ensures SeenThrough(ArgvPassed(|args|, base), base, b) == if args == [] then None else Some(args)
    ensures SeenThrough(ArgvPassed(|args|, base), base, b) == Some(args) <==> args != []
  {
    ReadArgvFrom(b, args, base, 0);
    assert args[0..] == args;
  }

  /** At the empty list: the block is a lone NULL word, but argv is NULL and not
      the address of that word. */
  lemma EmptyArgvIsNull(stackTop: nat, b: seq<byte>)
    requires stackTop > 4 && Layout(b, [], stackTop - 4)
    ensures Scan(UserArgv([], true), 0, 0) == Good([]) && BlockLen([]) == 4
    ensures ReadArgv(b, stackTop - 4, 0) == []
    ensures ArgvPassed(0, stackTop - 4) == 0 && SeenThrough(ArgvPassed(0, stackTop - 4), stackTop - 4, b) == None
  {
    SeenIffNotEmpty(b, [], stackTop - 4);
  }

  /** What enter_new_process is given, and the block copied to address base. */
  datatype Entry = Entry(argc: nat, argv: nat, sp: nat, base: nat, block: seq<byte>) | Failed(e: Error)

  /** The strings and their NULL are in the block, and the program finds them
      there through argv unless there are none. */
  ghost predicate Delivers(r: Entry, args: seq<Str>)
    requires r.Entry?
  {
    4 * |args| + 4 <= |r.block| == BlockLen(args) && WordAt(r.block, 4 * |args|) == 0 &&
    ReadArgv(r.block, r.base, 0) == args &&
    SeenThrough(r.argv, r.base, r.block) == if args == [] then None else Some(args)
  }

  lemma LaidOutDelivers(r: Entry, args: seq<Str>)
    requires r.Entry? && r.base > 0 && |r.block| == BlockLen(args) && Layout(r.block, args, r.base)
    requires r.argv == ArgvPassed(|args|, r.base) && NoNuls(args)
    ensures (r.argv == r.base <==> args != []) && Delivers(r, args)
  {
    SeenIffNotEmpty(r.block, args, r.base);
  }

  /** The argument part of sys_execv. The block ends at the top of the stack, and
      the stack pointer is 8-aligned below it. If the block fits in kargbuf, the
      new program finds through argv exactly the old strings and then NULL,
      unless there are none: then argv is NULL. If it does not fit, copy_args has
      stored outside kargbuf, and what the program finds is not promised. */
  method PlaceArgs(u: UserArgv, stackTop: nat) returns (r: Entry, ghost stored: set<int>)
    requires BLOCK_MAX < stackTop < Words.W
    requires forall i :: 0 <= i < |u.args| && u.args[i].Arg? ==> NoNul(u.args[i].s)
    ensures match Scan(u, 0, 0)
            case Bad(e) => r == Failed(e)
            case Good(args) =>
              r.Entry? && r.argc == |args| && r.base == stackTop - BlockLen(args) &&
              r.sp % 8 == 0 && r.base - 8 < r.sp <= r.base && (r.argv == r.base <==> args != []) &&
              (BlockLen(args) <= ARG_MAX ==> Delivers(r, args))
    ensures match Scan(u, 0, 0)
            case Bad(_) => stored == {}
            case Good(args) => (exists k :: k in stored && k >= ARG_MAX) <==> BlockLen(args) > ARG_MAX
  {
    var mem := new byte[BLOCK_MAX];
    var c;
    c, stored := CopyArgs(u, mem);
    if c.CopyError? { return Failed(c.e), stored; }
    ghost var args := Scan(u, 0, 0).args;
    var stackptr := stackTop - c.buflen;
    ScanNoNul(u, 0, 0);
    r := Enter(mem, c.argc, c.buflen, stackptr, args);
  }

  /** The end of sys_execv, once the stack pointer has been lowered by buflen. */
  method Enter(mem: array<byte>, argc: nat, buflen: nat, stackptr: nat, ghost args: seq<Str>) returns (r: Entry)
    requires argc == |args| && buflen == BlockLen(args) && Layout(mem[..], args, 0)
    requires 0 < stackptr && stackptr + buflen < Words.W && NoNuls(args)
    modifies mem
    ensures r.Entry? && r.argc == argc && r.base == stackptr && r.sp % 8 == 0 && stackptr - 8 < r.sp <= stackptr
    ensures (r.argv == r.base <==> args != []) && Delivers(r, args)
  {
    var block := CopyOut(mem, argc, buflen, stackptr, args);
    r := Entry(argc, ArgvPassed(argc, stackptr), stackptr - stackptr % 8, stackptr, block);
    LaidOutDelivers(r, args);
  }

  /** adjust_kargbuf and copyout. */
  method CopyOut(mem: array<byte>, argc: nat, buflen: nat, stackptr: nat, ghost args: seq<Str>)
    returns (block: seq<byte>)
    requires argc == |args| && buflen == BlockLen(args) && Layout(mem[..], args, 0) && stackptr + buflen < Words.W
    modifies mem
    ensures |block| == buflen && Layout(block, args, stackptr)
  {
    Adjust(mem, argc, stackptr, args);
    LayoutPrefix(mem[..], args, stackptr);
    block := mem[..buflen];
    assert block == mem[..][..buflen];
  }

  lemma {:induction false} ScanEmpties(u: UserArgv, i: nat, total: nat)
    requires u.terminated && i <= |u.args| && total + (|u.args| - i) <= ARG_MAX
    requires forall k :: 0 <= k < |u.args| ==> u.args[k] == Arg([])
    ensures var r := Scan(u, i, total); r.Good? && |r.args| == |u.args| - i && forall k :: 0 <= k < |r.args| ==> r.args[k] == []
    decreases |u.args| - i
  {
    if i < |u.args| { ScanEmpties(u, i + 1, total + 1); }
  }

  lemma {:induction false} EmptyLengths(args: seq<Str>)
    requires forall k :: 0 <= k < |args| ==> args[k] == []
    ensures Lengths(args) == 4 * |args|
  {
    if args != [] { EmptyLengths(args[..|args| - 1]); }
  }

  /** Every string starts on a word boundary behind the pointers and ends within
      the block, and no two overlap. */
  lemma StringsApart(args: seq<Str>, i: nat, j: nat)
    requires i < |args| && j < |args|
    ensures Off(args, i) % 4 == 0 && 4 * (|args| + 1) <= Off(args, i)
    ensures Off(args, i) + |args[i]| + 1 <= BlockLen(args)
    ensures i < j ==> Off(args, i) + |args[i]| + 1 <= Off(args, j)
  {
    OffMono(args, i, |args|);
    if i < j { OffMono(args, i, j); }
  }
}
