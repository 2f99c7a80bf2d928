/** common/libc/string/memcpy.c and memmove.c over one flat memory. */
module Memmove {
  import opened Common
  import Words

  /** sizeof(long). */
  const WORD: nat := 4

  /** now is old with the len bytes at src copied to dst. */
  ghost predicate Moved(was: seq<byte>, now: seq<byte>, dst: nat, src: nat, len: nat)
    requires dst + len <= |was| && src + len <= |was|
  {
    |now| == |was| &&
    forall k {:trigger now[k]} :: 0 <= k < |was| ==> now[k] == was[Origin(k, dst, src, len)]
  }

  /** Where the byte at k comes from. */
  function Origin(k: nat, dst: nat, src: nat, len: nat): nat {
    if dst <= k < dst + len then src + (k - dst) else k
  }

  /** What Moved says of the destination as a whole. */
  lemma MovedRange(was: seq<byte>, now: seq<byte>, dst: nat, src: nat, len: nat)
    requires dst + len <= |was| && src + len <= |was| && Moved(was, now, dst, src, len)
    ensures now[dst..dst + len] == was[src..src + len]
    ensures now[..dst] == was[..dst] && now[dst + len..] == was[dst + len..]
  {
    var a, b := now[dst..dst + len], was[src..src + len];
    forall k | 0 <= k < len ensures a[k] == b[k] { assert a[k] == now[dst + k]; }
  }

  /** One assignment of a long: all four bytes are read before any is written. */
  method CopyWord(mem: array<byte>, d: nat, s: nat)
    requires d + WORD <= mem.Length && s + WORD <= mem.Length
    modifies mem
    ensures Moved(old(mem[..]), mem[..], d, s, WORD)
  {
    var a, b, c, e := mem[s], mem[s + 1], mem[s + 2], mem[s + 3];
    mem[d], mem[d + 1], mem[d + 2], mem[d + 3] := a, b, c, e;
  }

  method CopyByte(mem: array<byte>, d: nat, s: nat)
    requires d < mem.Length && s < mem.Length
    modifies mem
    ensures Moved(old(mem[..]), mem[..], d, s, 1)
  {
    mem[d] := mem[s];
  }

  /** Copying front to back is right if dst is below src or the blocks are apart. */
  predicate ForwardSafe(dst: nat, src: nat, len: nat) {
    dst <= src || src + len <= dst
  }

  /** The front n bytes are copied, and then the next m. */
  lemma ForwardStep(was: seq<byte>, mid: seq<byte>, now: seq<byte>, dst: nat, src: nat, n: nat, m: nat)
    requires dst + n + m <= |was| && src + n + m <= |was| && ForwardSafe(dst, src, n + m)
    requires Moved(was, mid, dst, src, n) && Moved(mid, now, dst + n, src + n, m)
    ensures Moved(was, now, dst, src, n + m)
  {}

  method ForwardWords(mem: array<byte>, dst: nat, src: nat, n: nat)
    requires dst + n * WORD <= mem.Length && src + n * WORD <= mem.Length && ForwardSafe(dst, src, n * WORD)
    modifies mem
    ensures Moved(old(mem[..]), mem[..], dst, src, n * WORD)
  {
    ghost var was, now := mem[..], mem[..];
    var i, k: nat := 0, 0;
    while i < n
      invariant 0 <= i <= n && k == i * WORD && now == mem[..] && Moved(was, now, dst, src, k)
    {
      ghost var mid := now;
      CopyWord(mem, dst + k, src + k);
      now := mem[..];
      ForwardStep(was, mid, now, dst, src, k, WORD);
      i, k := i + 1, k + WORD;
    }
  }

  /** Where the byte at k comes from when bytes are copied one by one from the
      front: into a source that overlaps from below, its first dst - src bytes are
      repeated. */
  function SmearOrigin(k: nat, dst: nat, src: nat, len: nat): (o: nat)
    ensures if dst <= k < dst + len then src <= o <= src + (k - dst) else o == k
  {
    if dst <= k < dst + len then
      if src < dst then Words.DivShrinks(k - dst, dst - src); src + (k - dst) % (dst - src) else src + (k - dst)
    else k
  }

  ghost predicate Smeared(was: seq<byte>, now: seq<byte>, dst: nat, src: nat, len: nat) {
    |now| == |was| && dst + len <= |was| && src + len <= |was| &&
    forall k {:trigger now[k]} :: 0 <= k < |was| ==> now[k] == was[SmearOrigin(k, dst, src, len)]
  }

  lemma SmearStep(was: seq<byte>, mid: seq<byte>, now: seq<byte>, dst: nat, src: nat, i: nat)
    requires Smeared(was, mid, dst, src, i) && dst + i < |was| && src + i < |was|
    requires now == mid[dst + i := mid[src + i]]
    ensures Smeared(was, now, dst, src, i + 1)
  {
    SameSource(dst, src, i);
    forall k | 0 <= k < |was| ensures now[k] == was[SmearOrigin(k, dst, src, i + 1)] {
      if k != dst + i { assert SmearOrigin(k, dst, src, i + 1) == SmearOrigin(k, dst, src, i); }
    }
  }

  /** The next byte comes from where the byte that it is a copy of came from. */
  lemma SameSource(dst: nat, src: nat, i: nat)
    ensures SmearOrigin(dst + i, dst, src, i + 1) == SmearOrigin(src + i, dst, src, i)
  {
    if src < dst {
      var p := dst - src;
      if i < p { Words.SmallMod(i, p); } else { Repeats(i, p); }
    }
  }

  lemma Repeats(i: nat, p: nat)
    requires 0 < p <= i
    ensures (i - p) % p == i % p
  {
    Words.DivModUnique(i - p, p, i / p - 1, i % p);
  }

  /** The byte loop of memcpy, for any two ranges. */
  method ForwardBytes(mem: array<byte>, dst: nat, src: nat, len: nat)
    requires dst + len <= mem.Length && src + len <= mem.Length
    modifies mem
    ensures Smeared(old(mem[..]), mem[..], dst, src, len)
  {
    ghost var was, now := mem[..], mem[..];
    var i := 0;
    while i < len
      invariant 0 <= i <= len && now == mem[..] && Smeared(was, now, dst, src, i)
    {
      ghost var mid := now;
      mem[dst + i] := mem[src + i];
      now := mem[..];
      SmearStep(was, mid, now, dst, src, i);
      i := i + 1;
    }
  }

  lemma SmearMoves(was: seq<byte>, now: seq<byte>, dst: nat, src: nat, len: nat)
    requires Smeared(was, now, dst, src, len) && ForwardSafe(dst, src, len)
    ensures Moved(was, now, dst, src, len)
  {
    forall k | 0 <= k < |was| ensures now[k] == was[Origin(k, dst, src, len)] {
      if dst <= k < dst + len && src < dst { Words.SmallMod(k - dst, dst - src); }
    }
  }

  /** A memory on which copying from the front is not a move: all zero but for the
      first byte of the destination. */
  lemma UnsafeWitness(n: nat, dst: nat, src: nat, len: nat, was: seq<byte>, now: seq<byte>)
    requires dst + len <= n && src + len <= n && !ForwardSafe(dst, src, len)
    requires was == seq(n, k => if k == dst then 1 else 0) && Smeared(was, now, dst, src, len)
    ensures !Moved(was, now, dst, src, len)
  {
    var k := dst + (dst - src);
    assert SmearOrigin(k, dst, src, len) == src && Origin(k, dst, src, len) == dst;
    assert now[k] == 0;
  }

  /** Copying from the front moves every memory's bytes as asked if and only if
      the destination does not start inside the source. */
  lemma ForwardIsMoveIff(n: nat, dst: nat, src: nat, len: nat)
    requires dst + len <= n && src + len <= n
    ensures ForwardSafe(dst, src, len) <==>
      forall was, now :: |was| == n && Smeared(was, now, dst, src, len) ==> Moved(was, now, dst, src, len)
  {
    if ForwardSafe(dst, src, len) {
      forall was, now | |was| == n && Smeared(was, now, dst, src, len) ensures Moved(was, now, dst, src, len) {
        SmearMoves(was, now, dst, src, len);
      }
    } else {
      var was: seq<byte> := seq(n, k => if k == dst then 1 else 0);
      var now := Smear(was, dst, src, len);
      UnsafeWitness(n, dst, src, len, was, now);
    }
  }

  ghost function Smear(was: seq<byte>, dst: nat, src: nat, len: nat): (now: seq<byte>)
    requires dst + len <= |was| && src + len <= |was| && src < dst
    ensures Smeared(was, now, dst, src, len)
  {
    seq(|was|, k requires 0 <= k < |was| => was[SmearOrigin(k, dst, src, len)])
  }

  /** memcpy. The word and the byte loop do the same. */
  method Memcpy(mem: array<byte>, dst: nat, src: nat, len: nat)
    requires dst + len <= mem.Length && src + len <= mem.Length && ForwardSafe(dst, src, len)
    modifies mem
    ensures Moved(old(mem[..]), mem[..], dst, src, len)
  {
    if dst % WORD == 0 && src % WORD == 0 && len % WORD == 0 {
      ForwardWords(mem, dst, src, len / WORD);
    } else {
      ForwardBytes(mem, dst, src, len);
      SmearMoves(old(mem[..]), mem[..], dst, src, len);
    }
  }

  /** The part from byte i on has been moved. */
  ghost predicate MovedFrom(was: seq<byte>, now: seq<byte>, dst: nat, src: nat, i: nat, len: nat)
    requires dst + len <= |was| && src + len <= |was|
  {
    i <= len && Moved(was, now, dst + i, src + i, len - i)
  }

  /** Back to front: bytes k + m on are done, then the m before them. */
  lemma BackwardStep(was: seq<byte>, mid: seq<byte>, now: seq<byte>, dst: nat, src: nat, k: nat, m: nat, len: nat)
    requires k + m <= len && dst + len <= |was| && src + len <= |was| && src <= dst
    requires MovedFrom(was, mid, dst, src, k + m, len) && Moved(mid, now, dst + k, src + k, m)
    ensures MovedFrom(was, now, dst, src, k, len)
  {}

  method BackwardWords(mem: array<byte>, dst: nat, src: nat, n: nat)
    requires dst + n * WORD <= mem.Length && src <= dst
    modifies mem
    ensures Moved(old(mem[..]), mem[..], dst, src, n * WORD)
  {
    ghost var was, now := mem[..], mem[..];
    var i := n;
    while i > 0
      invariant 0 <= i <= n && now == mem[..]
      invariant MovedFrom(was, now, dst, src, i * WORD, n * WORD)
    {
      ghost var mid := now;
      var k: nat := (i - 1) * WORD;
      CopyWord(mem, dst + k, src + k);
      now := mem[..];
      BackwardStep(was, mid, now, dst, src, k, WORD, n * WORD);
      i := i - 1;
    }
  }

  method BackwardByte(mem: array<byte>, dst: nat, src: nat, k: nat, len: nat, ghost was: seq<byte>)
    requires k < len && dst + len <= mem.Length == |was| && src <= dst && MovedFrom(was, mem[..], dst, src, k + 1, len)
    modifies mem
    ensures MovedFrom(was, mem[..], dst, src, k, len)
  {
    CopyByte(mem, dst + k, src + k);
    BackwardStep(was, old(mem[..]), mem[..], dst, src, k, 1, len);
  }

  method BackwardBytes(mem: array<byte>, dst: nat, src: nat, len: nat)
    requires dst + len <= mem.Length && src <= dst
    modifies mem
    ensures Moved(old(mem[..]), mem[..], dst, src, len)
  {
    var i := len;
    while i > 0
      invariant 0 <= i <= len && MovedFrom(old(mem[..]), mem[..], dst, src, i, len)
    {
      BackwardByte(mem, dst, src, i - 1, len, old(mem[..]));
      i := i - 1;
    }
  }

  /** memmove: for every destination, source, length and alignment, overlapping or
      not, the destination ends up with what the source held and nothing else
      changes. Section 7.21.2.2 of C99. */
  method Memmove(mem: array<byte>, dst: nat, src: nat, len: nat)
    requires dst + len <= mem.Length && src + len <= mem.Length
    modifies mem
    ensures Moved(old(mem[..]), mem[..], dst, src, len)
  {
    if dst < src {
      Memcpy(mem, dst, src, len);
    } else if dst % WORD == 0 && src % WORD == 0 && len % WORD == 0 {
      BackwardWords(mem, dst, src, len / WORD);
    } else {
      BackwardBytes(mem, dst, src, len);
    }
  }
}
