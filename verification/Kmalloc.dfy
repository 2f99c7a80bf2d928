/** kern/vm/kmalloc.c: what the subpage allocator's data structures mean. */
module HeapModel {
  import opened Common
  import opened Chains
  import Words

  const PAGE_SIZE: nat := 4096
  const NSIZES: nat := 8
  const INVALID_OFFSET: nat := 0xffff
  const REFS_PER_PAGE: nat := 256
  const REF_SIZE: nat := 16
  const NUM_PAGEREFPAGES: nat := 16

  function Size(bt: nat): (n: nat)
    requires bt < NSIZES
    ensures 16 <= n <= 2048
  {
    [16, 32, 64, 128, 256, 512, 1024, 2048][bt]
  }

  /** The size classes are the powers of two from 16 to 2048. */
  lemma SizesArePowers(bt: nat)
    requires bt < NSIZES
    ensures Size(bt) == 16 * Words.Pow2(bt)
  {
    assert Words.Pow2(3) == 8;
    assert Words.Pow2(5) == 32;
    assert Words.Pow2(7) == 128;
  }

  function PerPage(bt: nat): (n: nat)
    requires bt < NSIZES
    ensures n >= 2 && n * Size(bt) == PAGE_SIZE
  {
    assert Size(bt) in {16, 32, 64, 128, 256, 512, 1024, 2048};
    PAGE_SIZE / Size(bt)
  }

  /** A pointer to a struct pageref; 0 is NULL. */
  type Ref = nat

  /** struct pageref without its links. The page address and block type share one
      word in the source; PabRoundTrip shows that nothing is lost by that. */
  datatype PageRef = PageRef(page: nat, bt: nat, off: nat, nfree: nat)

  /** MKPAB, PR_PAGEADDR and PR_BLOCKTYPE. */
  function Mkpab(page: nat, bt: nat): nat { page / PAGE_SIZE * PAGE_SIZE + bt % PAGE_SIZE }
  function PrPageaddr(pab: nat): nat { pab / PAGE_SIZE * PAGE_SIZE }
  function PrBlocktype(pab: nat): nat { pab % PAGE_SIZE }

  lemma PabRoundTrip(page: nat, bt: nat)
    requires page % PAGE_SIZE == 0 && bt < NSIZES
    ensures PrPageaddr(Mkpab(page, bt)) == page && PrBlocktype(Mkpab(page, bt)) == bt
  {}

  /** struct kheap_root: the page of pagerefs (0 if none yet) and its bitmap. */
  datatype Root = Root(page: nat, inuse: seq<bool>, numinuse: nat)

  /** The allocator's globals, with the lists they encode: `all` and `same` are
      the chains from allbase and sizebases, and `free` each page's free list. */
  datatype Heap = Heap(
    mem: map<nat, nat>,
    recs: map<Ref, PageRef>,
    nextSame: map<Ref, Ref>,
    nextAll: map<Ref, Ref>,
    sizebases: seq<Ref>,
    allbase: Ref,
    roots: seq<Root>,
    all: seq<Ref>,
    same: seq<seq<Ref>>,
    free: map<Ref, seq<nat>>)

  // ------------------------------------------------------------ invariant

  /** a is the address of a block on the given page. */
  predicate BlockOn(page: nat, bt: nat, a: nat)
    requires bt < NSIZES
  {
    a < page + PAGE_SIZE && MultipleFrom(page, Size(bt), a)
  }

  /** a lies a multiple of s above page. */
  predicate MultipleFrom(page: nat, s: nat, a: nat)
    requires s > 0
  {
    page <= a && (a - page) % s == 0
  }

  function HeadOf(p: PageRef): nat {
    if p.off == INVALID_OFFSET then 0 else p.page + p.off
  }

  /** One page: the links in memory spell its free list, which consists of
      distinct aligned blocks of the page, nfree of them. */
  ghost predicate RecOk(mem: map<nat, nat>, p: PageRef, free: seq<nat>) {
    p.bt < NSIZES && p.page > 0 && p.page % PAGE_SIZE == 0 &&
    (p.off == INVALID_OFFSET || p.off < PAGE_SIZE) &&
    Chain(mem, HeadOf(p), free) && NoDup(free) && |free| == p.nfree &&
    p.nfree <= PerPage(p.bt) &&
    forall a :: a in free ==> BlockOn(p.page, p.bt, a)
  }

  ghost predicate RecsOk(h: Heap) {
    h.free.Keys == h.recs.Keys &&
    forall r :: r in h.recs ==> RecOk(h.mem, h.recs[r], h.free[r])
  }

  ghost predicate PagesDistinct(h: Heap) {
    forall r, q :: r in h.recs && q in h.recs && r != q ==> h.recs[r].page != h.recs[q].page
  }

  /** Every record is once on the list of all and once on that of its size. */
  ghost predicate ListsOk(h: Heap) {
    |h.sizebases| == |h.same| == NSIZES && AllOk(h) &&
    forall k :: 0 <= k < NSIZES ==> SameOk(h, k)
  }

  ghost predicate AllOk(h: Heap) {
    Chain(h.nextAll, h.allbase, h.all) && NoDup(h.all) &&
    forall r :: r in h.all <==> r in h.recs
  }

  ghost predicate SameOk(h: Heap, k: nat)
    requires |h.sizebases| == |h.same| == NSIZES && k < NSIZES
  {
    Chain(h.nextSame, h.sizebases[k], h.same[k]) && NoDup(h.same[k]) &&
    forall r :: r in h.same[k] <==> r in h.recs && h.recs[r].bt == k
  }

  function CountTrue(s: seq<bool>): nat {
    if s == [] then 0 else (if s[|s| - 1] then 1 else 0) + CountTrue(s[..|s| - 1])
  }

  /** r points into the pageref page of the root. */
  predicate InRoot(root: Root, r: Ref) {
    root.page != 0 && root.page <= r < root.page + PAGE_SIZE
  }

  function SlotIn(root: Root, r: Ref): nat
    requires InRoot(root, r)
  {
    (r - root.page) / REF_SIZE
  }

  predicate RefAt(root: Root, j: nat, r: Ref) {
    root.page != 0 && r == root.page + j * REF_SIZE
  }

  ghost predicate Marked(root: Root, r: Ref)
    requires |root.inuse| == REFS_PER_PAGE
  {
    InRoot(root, r) && RefAt(root, SlotIn(root, r), r) && root.inuse[SlotIn(root, r)]
  }

  ghost predicate RootsOk(roots: seq<Root>) {
    |roots| == NUM_PAGEREFPAGES &&
    (forall i :: 0 <= i < |roots| ==>
      |roots[i].inuse| == REFS_PER_PAGE && roots[i].numinuse == CountTrue(roots[i].inuse) &&
      roots[i].page % PAGE_SIZE == 0) &&
    (forall i, j :: 0 <= i < j < |roots| && roots[i].page != 0 ==> roots[i].page != roots[j].page)
  }

  ghost predicate HasSlot(roots: seq<Root>, r: Ref)
    requires RootsOk(roots)
  {
    exists i :: 0 <= i < |roots| && Marked(roots[i], r)
  }

  /** r is the address of a marked slot, and an earlier root that has no page has
      all its bits used up. */
  ghost predicate Reserved(roots: seq<Root>, r: Ref)
    requires RootsOk(roots)
  {
    HasSlot(roots, r) &&
    forall i, j :: 0 <= i < j < |roots| && Marked(roots[j], r) && roots[i].page == 0 ==> roots[i].numinuse == REFS_PER_PAGE
  }

  /** Every record sits in a reserved slot. */
  ghost predicate SlotsOk(h: Heap) {
    RootsOk(h.roots) &&
    forall r :: r in h.recs ==> Reserved(h.roots, r)
  }

  /** The structure invariant inside a locked section ... */
  ghost predicate Inv(h: Heap) { RecsOk(h) && PagesDistinct(h) && ListsOk(h) && SlotsOk(h) }

  /** ... and whenever the lock is free: no page is entirely free as well. */
  ghost predicate Settled(h: Heap) {
    Inv(h) && forall r :: r in h.recs ==> h.recs[r].nfree < PerPage(h.recs[r].bt)
  }

  /** a is a block in a client's hands. */
  ghost predicate LiveOn(h: Heap, r: Ref, a: nat) {
    r in h.recs && r in h.free && h.recs[r].bt < NSIZES &&
    BlockOn(h.recs[r].page, h.recs[r].bt, a) && a !in h.free[r]
  }

  ghost predicate Live(h: Heap, a: nat) { exists r :: LiveOn(h, r, a) }

  // ------------------------------------------------------ taking a block

  /** doalloc: takes the head of the free list of record r. */
  function Pop(h: Heap, r: Ref): Heap
    requires r in h.recs && r in h.free && h.free[r] != [] && h.recs[r].nfree > 0
  {
    var p := h.recs[r];
    var head := HeadOf(p);
    var fl := if head in h.mem then h.mem[head] else 0;
    var off := if fl != 0 && fl >= p.page then fl - p.page else INVALID_OFFSET;
    h.(recs := h.recs[r := p.(off := off, nfree := p.nfree - 1)], free := h.free[r := h.free[r][1..]])
  }

  lemma PopRec(mem: map<nat, nat>, p: PageRef, free: seq<nat>)
    requires RecOk(mem, p, free) && free != []
    ensures p.nfree > 0 && p.off < PAGE_SIZE && HeadOf(p) == free[0] && free[0] in mem
    ensures var fl := mem[free[0]];
      (fl != 0 ==> p.page <= fl < p.page + PAGE_SIZE && p.nfree > 1) && (fl == 0 ==> p.nfree == 1) &&
      RecOk(mem, p.(off := if fl != 0 then fl - p.page else INVALID_OFFSET, nfree := p.nfree - 1), free[1..])
  {
    var fl := mem[free[0]];
    assert forall a :: a in free[1..] ==> a in free;
    assert Chain(mem, fl, free[1..]);
    if free[1..] != [] { assert fl == free[1] && fl in free; }
  }

  /** Outside one page, memory is the same. */
  ghost predicate SameOffPage(mem: map<nat, nat>, mem': map<nat, nat>, page: nat) {
    forall x :: x in mem && !(page <= x < page + PAGE_SIZE) ==> x in mem' && mem'[x] == mem[x]
  }

  /** h' is h but for the counters and free list of record r. */
  ghost predicate Patched(h: Heap, h': Heap, r: Ref) {
    r in h.recs && SamePlaces(h, h') && SameOffPage(h.mem, h'.mem, h.recs[r].page) &&
    h'.free.Keys == h.free.Keys &&
    forall q :: q in h.recs && q != r ==> h'.recs[q] == h.recs[q] && (q in h.free ==> h'.free[q] == h.free[q])
  }

  /** The same records, for the same pages and sizes, linked in the same way. */
  ghost predicate SamePlaces(h: Heap, h': Heap) {
    h'.recs.Keys == h.recs.Keys &&
    (forall q :: q in h.recs ==> h'.recs[q].page == h.recs[q].page && h'.recs[q].bt == h.recs[q].bt) &&
    h'.nextSame == h.nextSame && h'.nextAll == h.nextAll && h'.sizebases == h.sizebases &&
    h'.allbase == h.allbase && h'.all == h.all && h'.same == h.same && h'.roots == h.roots
  }

  lemma OtherRecKept(mem: map<nat, nat>, mem': map<nat, nat>, page: nat, p: PageRef, free: seq<nat>)
    requires RecOk(mem, p, free) && SameOffPage(mem, mem', page) && page % PAGE_SIZE == 0 && p.page != page
    ensures RecOk(mem', p, free)
  {
    forall x | x in free ensures !(page <= x < page + PAGE_SIZE) { PagesApart(p.page, page, x); }
    ChainFrame(mem, mem', HeadOf(p), free);
  }

  lemma PatchKeeps(h: Heap, h': Heap, r: Ref)
    requires Inv(h) && Patched(h, h', r) && RecOk(h'.mem, h'.recs[r], h'.free[r])
    ensures Inv(h')
  {
    PatchRecs(h, h', r);
    ListsFrame(h, h');
    SlotsFrame(h, h');
  }

  lemma PatchRecs(h: Heap, h': Heap, r: Ref)
    requires RecsOk(h) && PagesDistinct(h) && Patched(h, h', r) && RecOk(h'.mem, h'.recs[r], h'.free[r])
    ensures RecsOk(h')
  {
    forall q | q in h'.recs && q != r ensures RecOk(h'.mem, h'.recs[q], h'.free[q]) {
      OtherRecKept(h.mem, h'.mem, h.recs[r].page, h.recs[q], h.free[q]);
    }
  }

  lemma ListsFrame(h: Heap, h': Heap)
    requires ListsOk(h) && SamePlaces(h, h')
    ensures ListsOk(h')
  {
    forall k | 0 <= k < NSIZES ensures SameOk(h', k) { assert SameOk(h, k); }
  }

  lemma SlotsFrame(h: Heap, h': Heap)
    requires SlotsOk(h) && SamePlaces(h, h')
    ensures SlotsOk(h')
  {}

  ghost predicate BlockOnRec(h: Heap, r: Ref, x: nat) {
    r in h.recs && h.recs[r].bt < NSIZES && BlockOn(h.recs[r].page, h.recs[r].bt, x)
  }

  lemma PopPatches(h: Heap, r: Ref)
    requires h.free.Keys == h.recs.Keys && r in h.recs && h.free[r] != [] && RecOk(h.mem, h.recs[r], h.free[r])
    ensures h.recs[r].nfree > 0 && Patched(h, Pop(h, r), r)
    ensures var h' := Pop(h, r); RecOk(h'.mem, h'.recs[r], h'.free[r]) && h.free[r] == [h.free[r][0]] + h'.free[r]
  {
    PopRec(h.mem, h.recs[r], h.free[r]);
  }

  lemma PopKeeps(h: Heap, r: Ref)
    requires Inv(h) && r in h.recs && h.free[r] != []
    ensures h.recs[r].nfree > 0 && Inv(Pop(h, r))
  {
    PopPatches(h, r);
    PatchKeeps(h, Pop(h, r), r);
  }

  /** Distinct aligned pages share no address. */
  lemma PagesApart(p: nat, q: nat, a: nat)
    requires p % PAGE_SIZE == 0 && q % PAGE_SIZE == 0 && p != q
    requires p <= a < p + PAGE_SIZE
    ensures !(q <= a < q + PAGE_SIZE)
  {}

  // --------------------------------------------------- giving a block back

  /** Outside the block at a, memory is the same. */
  ghost predicate SameButBlock(mem: map<nat, nat>, mem': map<nat, nat>, a: nat, size: nat) {
    forall x :: x in mem && !(a <= x < a + size) ==> x in mem' && mem'[x] == mem[x]
  }

  /** subpage_kfree: links block a, already overwritten with 0xdeadbeef in mem',
      in front of the free list of record r. */
  function Push(h: Heap, r: Ref, a: nat, mem': map<nat, nat>): Heap
    requires r in h.recs && r in h.free && h.recs[r].page <= a
  {
    var p := h.recs[r];
    h.(mem := mem'[a := HeadOf(p)],
       recs := h.recs[r := p.(off := a - p.page, nfree := p.nfree + 1)],
       free := h.free[r := [a] + h.free[r]])
  }

  lemma MultiplesApart(x: nat, y: nat, s: nat)
    requires s > 0 && x % s == 0 && y % s == 0 && x < y
    ensures x + s <= y
  {
    var i, j := x / s, y / s;
    assert x == i * s && y == j * s;
    Words.MulCancel(i, j, s);
    Words.MulMono(i + 1, j, s);
    assert (i + 1) * s == i * s + s;
  }

  /** Distinct blocks of a page do not overlap. */
  lemma BlocksApart(page: nat, bt: nat, a: nat, b: nat)
    requires bt < NSIZES && BlockOn(page, bt, a) && BlockOn(page, bt, b) && a != b
    ensures a + Size(bt) <= b || b + Size(bt) <= a
  {
    if a < b { MultiplesApart(a - page, b - page, Size(bt)); } else { MultiplesApart(b - page, a - page, Size(bt)); }
  }

  /** A block lies entirely on its page. */
  lemma BlockFits(page: nat, bt: nat, a: nat)
    requires bt < NSIZES && BlockOn(page, bt, a)
    ensures a + Size(bt) <= page + PAGE_SIZE
  {}

  lemma PushRec(mem: map<nat, nat>, mem': map<nat, nat>, p: PageRef, free: seq<nat>, a: nat)
    requires RecOk(mem, p, free) && BlockOn(p.page, p.bt, a) && a !in free && p.nfree < PerPage(p.bt)
    requires SameButBlock(mem, mem', a, Size(p.bt))
    ensures RecOk(mem'[a := HeadOf(p)], p.(off := a - p.page, nfree := p.nfree + 1), [a] + free)
    ensures p.off != INVALID_OFFSET ==> HeadOf(p) != a
  {
    forall x | x in free ensures !(a <= x < a + Size(p.bt)) { BlocksApart(p.page, p.bt, a, x); }
    ChainFrame(mem, mem', HeadOf(p), free);
    ChainPush(mem', HeadOf(p), free, a);
    ChainMembers(mem, HeadOf(p), free);
  }

  lemma PushPatches(h: Heap, r: Ref, a: nat, mem': map<nat, nat>)
    requires h.free.Keys == h.recs.Keys && r in h.recs && RecOk(h.mem, h.recs[r], h.free[r])
    requires BlockOn(h.recs[r].page, h.recs[r].bt, a) && a !in h.free[r]
    requires h.recs[r].nfree < PerPage(h.recs[r].bt)
    requires SameButBlock(h.mem, mem', a, Size(h.recs[r].bt))
    ensures var h' := Push(h, r, a, mem'); Patched(h, h', r) && RecOk(h'.mem, h'.recs[r], h'.free[r])
  {
    var p := h.recs[r];
    PushRec(h.mem, mem', p, h.free[r], a);
    BlockFits(p.page, p.bt, a);
  }

  lemma PushKeeps(h: Heap, r: Ref, a: nat, mem': map<nat, nat>)
    requires Inv(h) && r in h.recs
    requires BlockOnRec(h, r, a) && a !in h.free[r] && h.recs[r].nfree < PerPage(h.recs[r].bt)
    requires SameButBlock(h.mem, mem', a, Size(h.recs[r].bt))
    ensures Inv(Push(h, r, a, mem'))
  {
    PushPatches(h, r, a, mem');
    PatchKeeps(h, Push(h, r, a, mem'), r);
  }

  // ---------------------------------------------------------- whole pages

  /** Multiples of s below limit, counted from page. */
  ghost function Multiples(page: nat, s: nat, limit: nat): set<nat>
    requires s > 0
  {
    set a | page <= a < page + limit && MultipleFrom(page, s, a)
  }

  lemma {:induction false} MultiplesCard(page: nat, s: nat, n: nat)
    requires s > 0
    ensures |Multiples(page, s, n * s)| == n
  {
    if n == 0 {
      assert Multiples(page, s, 0) == {};
    } else {
      MultiplesCard(page, s, n - 1);
      MultiplesNext(page, s, n - 1);
    }
  }

  lemma MultiplesNext(page: nat, s: nat, k: nat)
    requires s > 0
    ensures page + k * s !in Multiples(page, s, k * s)
    ensures Multiples(page, s, (k + 1) * s) == Multiples(page, s, k * s) + {page + k * s}
  {
    Words.MultipleMod(s, k);
    assert (k + 1) * s == k * s + s;
    MultiplesStep(page, s, k * s);
  }

  lemma MultiplesStep(page: nat, s: nat, e: nat)
    requires s > 0 && e % s == 0
    ensures page + e !in Multiples(page, s, e)
    ensures Multiples(page, s, e + s) == Multiples(page, s, e) + {page + e}
  {
    forall a | page + e < a < page + e + s ensures !MultipleFrom(page, s, a) {
      if MultipleFrom(page, s, a) { MultiplesApart(e, a - page, s); }
    }
    assert MultipleFrom(page, s, page + e);
  }

  ghost function Elems(s: seq<nat>): set<nat> { set x | x in s }

  lemma {:induction false} NoDupCard(s: seq<nat>)
    requires NoDup(s)
    ensures |Elems(s)| == |s|
  {
    if s != [] {
      var t, e := s[..|s| - 1], s[|s| - 1];
      NoDupCard(t);
      assert s == t + [e];
      assert e !in Elems(t);
      assert Elems(s) == Elems(t) + {e};
    } else {
      assert Elems(s) == {};
    }
  }

  lemma SubsetCard(a: set<nat>, b: set<nat>)
    requires a <= b
    ensures |a| <= |b| && (|a| == |b| ==> a == b)
  {
    var d := b - a;
    assert b == a + d;
    if |d| == 0 { assert d == {}; }
  }

  /** The free count reaches the number of blocks on the page exactly when no
      block of the page is live. */
  lemma FullIff(mem: map<nat, nat>, p: PageRef, free: seq<nat>)
    requires RecOk(mem, p, free)
    ensures p.nfree == PerPage(p.bt) <==> forall a :: BlockOn(p.page, p.bt, a) ==> a in free
  {
    var fs, bs := Elems(free), Multiples(p.page, Size(p.bt), PAGE_SIZE);
    NoDupCard(free);
    MultiplesCard(p.page, Size(p.bt), PerPage(p.bt));
    assert forall a :: a in bs <==> BlockOn(p.page, p.bt, a);
    CoversIff(fs, bs);
    assert PerPage(p.bt) * Size(p.bt) == PAGE_SIZE;
    assert p.nfree == PerPage(p.bt) <==> |fs| == |bs|;
  }

  lemma CoversIff(a: set<nat>, b: set<nat>)
    requires a <= b
    ensures |a| == |b| <==> forall x :: x in b ==> x in a
  {
    SubsetCard(a, b);
    if forall x :: x in b ==> x in a { assert a == b; }
  }

  // ------------------------------------------ adding and removing a record

  /** Puts a new record, for a page whose blocks are all free, in front of both
      lists. */
  function Insert(h: Heap, r: Ref, page: nat, bt: nat, mem': map<nat, nat>, free: seq<nat>): Heap
    requires bt < NSIZES && |h.sizebases| == |h.same| == NSIZES
  {
    h.(mem := mem', recs := h.recs[r := PageRef(page, bt, (PerPage(bt) - 1) * Size(bt), PerPage(bt))],
       nextSame := h.nextSame[r := h.sizebases[bt]], sizebases := h.sizebases[bt := r],
       nextAll := h.nextAll[r := h.allbase], allbase := r,
       all := [r] + h.all, same := h.same[bt := [r] + h.same[bt]], free := h.free[r := free])
  }

  /** The page is not in use by any record. */
  ghost predicate NewPage(h: Heap, page: nat) {
    page > 0 && page % PAGE_SIZE == 0 && forall q :: q in h.recs ==> h.recs[q].page != page
  }

  lemma InsertRecs(h: Heap, r: Ref, page: nat, bt: nat, mem': map<nat, nat>, free: seq<nat>)
    requires RecsOk(h) && PagesDistinct(h) && bt < NSIZES && |h.sizebases| == |h.same| == NSIZES
    requires r !in h.recs && NewPage(h, page) && SameOffPage(h.mem, mem', page)
    requires RecOk(mem', PageRef(page, bt, (PerPage(bt) - 1) * Size(bt), PerPage(bt)), free)
    ensures var h' := Insert(h, r, page, bt, mem', free); RecsOk(h') && PagesDistinct(h')
  {
    var h' := Insert(h, r, page, bt, mem', free);
    forall q | q in h.recs ensures RecOk(mem', h.recs[q], h.free[q]) {
      OtherRecKept(h.mem, mem', page, h.recs[q], h.free[q]);
    }
    assert forall q :: q in h'.recs ==> q == r || q in h.recs;
  }

  lemma InsertLists(h: Heap, r: Ref, page: nat, bt: nat, mem': map<nat, nat>, free: seq<nat>)
    requires ListsOk(h) && bt < NSIZES && r != 0 && r !in h.recs
    ensures ListsOk(Insert(h, r, page, bt, mem', free))
  {
    var h' := Insert(h, r, page, bt, mem', free);
    ChainPush(h.nextAll, h.allbase, h.all, r);
    assert AllOk(h');
    forall k | 0 <= k < NSIZES ensures SameOk(h', k) {
      assert SameOk(h, k);
      if k == bt { ChainPush(h.nextSame, h.sizebases[k], h.same[k], r); }
      else { ChainFrame(h.nextSame, h'.nextSame, h.sizebases[k], h.same[k]); }
    }
  }

  lemma InsertSlots(h: Heap, h': Heap, r: Ref)
    requires SlotsOk(h) && h'.roots == h.roots && h'.recs.Keys == h.recs.Keys + {r} && Reserved(h.roots, r)
    ensures SlotsOk(h')
  {}

  lemma InsertKeeps(h: Heap, r: Ref, page: nat, bt: nat, mem': map<nat, nat>, free: seq<nat>)
    requires Inv(h) && bt < NSIZES && r != 0 && r !in h.recs && Reserved(h.roots, r)
    requires NewPage(h, page) && SameOffPage(h.mem, mem', page)
    requires RecOk(mem', PageRef(page, bt, (PerPage(bt) - 1) * Size(bt), PerPage(bt)), free)
    ensures Inv(Insert(h, r, page, bt, mem', free))
  {
    InsertRecs(h, r, page, bt, mem', free);
    InsertLists(h, r, page, bt, mem', free);
    InsertSlots(h, Insert(h, r, page, bt, mem', free), r);
  }

  /** Where in its lists a record stands. */
  ghost predicate Position(h: Heap, r: Ref, ia: nat, ib: nat) {
    r in h.recs && h.recs[r].bt < NSIZES && |h.same| == NSIZES &&
    ia < |h.all| && h.all[ia] == r && ib < |h.same[h.recs[r].bt]| && h.same[h.recs[r].bt][ib] == r
  }

  /** h' is h without record r, whose slot may be given up. */
  ghost predicate Deleted(h: Heap, h': Heap, r: Ref) {
    r in h.recs && h'.recs == h.recs - {r} && h'.free == h.free - {r} && h'.mem == h.mem && ListsOk(h')
  }

  lemma DeleteRecs(h: Heap, h': Heap, r: Ref)
    requires RecsOk(h) && PagesDistinct(h) && Deleted(h, h', r)
    ensures RecsOk(h') && PagesDistinct(h')
  {}

  // ------------------------------------------------------- pageref slots

  lemma {:induction false} CountSet(s: seq<bool>, j: nat, v: bool)
    requires j < |s| && s[j] != v
    ensures CountTrue(s[j := v]) == CountTrue(s) + (if v then 1 else -1)
  {
    var t, n := s[j := v], |s| - 1;
    if j == n {
      assert t[..n] == s[..n];
    } else {
      CountSet(s[..n], j, v);
      assert t[..n] == s[..n][j := v];
    }
  }

  lemma {:induction false} CountBound(s: seq<bool>)
    ensures CountTrue(s) <= |s|
    ensures CountTrue(s) == |s| <==> forall j :: 0 <= j < |s| ==> s[j]
  {
    if s != [] {
      var n := |s| - 1;
      CountBound(s[..n]);
      assert forall j :: 0 <= j < n ==> s[..n][j] == s[j];
    }
  }

  function SetBit(root: Root, j: nat, v: bool): Root
    requires j < |root.inuse| && (!v ==> root.numinuse > 0)
  {
    root.(inuse := root.inuse[j := v], numinuse := if v then root.numinuse + 1 else root.numinuse - 1)
  }

  /** Marking a free slot of root i. */
  lemma MarkKeeps(roots: seq<Root>, i: nat, j: nat)
    requires RootsOk(roots) && i < |roots| && j < REFS_PER_PAGE && !roots[i].inuse[j]
    ensures RootsOk(roots[i := SetBit(roots[i], j, true)])
    ensures forall r :: HasSlot(roots, r) ==> HasSlot(roots[i := SetBit(roots[i], j, true)], r)
    ensures roots[i].numinuse < REFS_PER_PAGE
  {
    var roots' := roots[i := SetBit(roots[i], j, true)];
    CountSet(roots[i].inuse, j, true);
    CountBound(roots[i].inuse);
    forall r | HasSlot(roots, r) ensures HasSlot(roots', r) {
      var k :| 0 <= k < |roots| && Marked(roots[k], r);
      assert Marked(roots'[k], r);
    }
  }

  lemma MarkReserved(roots: seq<Root>, i: nat, j: nat, r: Ref)
    requires RootsOk(roots) && i < |roots| && j < REFS_PER_PAGE && !roots[i].inuse[j]
    requires !RefAt(roots[i], j, r) && Reserved(roots, r)
    ensures RootsOk(roots[i := SetBit(roots[i], j, true)])
    ensures Reserved(roots[i := SetBit(roots[i], j, true)], r)
  {
    var roots' := roots[i := SetBit(roots[i], j, true)];
    MarkKeeps(roots, i, j);
    forall a, b | 0 <= a < b < |roots'| && Marked(roots'[b], r) && roots'[a].page == 0
      ensures roots'[a].numinuse == REFS_PER_PAGE
    {
      assert Marked(roots[b], r);
    }
  }

  /** A reference stands for one slot of one root. */
  lemma SlotUnique(roots: seq<Root>, a: nat, b: nat, r: Ref)
    requires RootsOk(roots) && a < |roots| && b < |roots| && InRoot(roots[a], r) && InRoot(roots[b], r)
    ensures a == b
  {}

  lemma RefSlot(root: Root, j: nat, r: Ref)
    requires RefAt(root, j, r) && j < REFS_PER_PAGE
    ensures InRoot(root, r) && SlotIn(root, r) == j
  {}

  function Clear(roots: seq<Root>, i: nat, r: Ref): seq<Root>
    requires i < |roots| && InRoot(roots[i], r) && SlotIn(roots[i], r) < |roots[i].inuse| && roots[i].numinuse > 0
  {
    roots[i := SetBit(roots[i], SlotIn(roots[i], r), false)]
  }

  /** Clearing the slot of r leaves every other reserved reference reserved. */
  lemma ClearKeeps(roots: seq<Root>, i: nat, r: Ref)
    requires RootsOk(roots) && i < |roots| && Marked(roots[i], r)
    ensures roots[i].numinuse > 0 && RootsOk(Clear(roots, i, r))
    ensures forall q :: q != r && Reserved(roots, q) ==> Reserved(Clear(roots, i, r), q)
  {
    CountSet(roots[i].inuse, SlotIn(roots[i], r), false);
    forall q | q != r && Reserved(roots, q) ensures Reserved(Clear(roots, i, r), q) { ClearReserved(roots, i, r, q); }
  }

  lemma ClearReserved(roots: seq<Root>, i: nat, r: Ref, q: Ref)
    requires RootsOk(roots) && i < |roots| && Marked(roots[i], r) && roots[i].numinuse > 0
    requires q != r && Reserved(roots, q) && RootsOk(Clear(roots, i, r))
    ensures Reserved(Clear(roots, i, r), q)
  {
    var roots' := Clear(roots, i, r);
    var k :| 0 <= k < |roots| && Marked(roots[k], q);
    assert Marked(roots'[k], q);
    forall a, b | 0 <= a < b < |roots'| && Marked(roots'[b], q) && roots'[a].page == 0
      ensures roots'[a].numinuse == REFS_PER_PAGE
    {
      assert Marked(roots[b], q);
    }
  }

  /** Giving root i its page of pagerefs. */
  lemma SetPageKeeps(roots: seq<Root>, i: nat, va: nat)
    requires RootsOk(roots) && i < |roots| && roots[i].page == 0
    requires va != 0 && va % PAGE_SIZE == 0 && forall k :: 0 <= k < |roots| ==> roots[k].page != va
    ensures RootsOk(roots[i := roots[i].(page := va)])
    ensures forall q :: Reserved(roots, q) ==> Reserved(roots[i := roots[i].(page := va)], q)
  {
    var roots' := roots[i := roots[i].(page := va)];
    forall q | Reserved(roots, q) ensures Reserved(roots', q) {
      var k :| 0 <= k < |roots| && Marked(roots[k], q);
      assert Marked(roots'[k], q);
      PagesApart(roots[k].page, va, q);
      forall a, b | 0 <= a < b < |roots'| && Marked(roots'[b], q) && roots'[a].page == 0
        ensures roots'[a].numinuse == REFS_PER_PAGE
      {
        assert Marked(roots[b], q);
      }
    }
  }
}

/** kern/vm/kmalloc.c: the subpage allocator itself. Each method is what runs
    between acquiring and dropping kmalloc_spinlock, or a part of that. */
module Kmalloc {
  import Words
  import opened Common
  import opened Chains
  import opened HeapModel

  /** What freeing a pointer comes to. */
  datatype FreeOutcome =
    | NotOurs
    | InvalidAddress
    | RootAssertion
    | Freed(emptied: nat)

  datatype RefPageOutcome = NoPage | Ready | MustDiscard

  class KHeap {
    var mem: map<nat, nat>
    var recs: map<Ref, PageRef>
    var nextSame: map<Ref, Ref>
    var nextAll: map<Ref, Ref>
    var sizebases: seq<Ref>
    var allbase: Ref
    var roots: seq<Root>
    ghost var all: seq<Ref>
    ghost var same: seq<seq<Ref>>
    ghost var free: map<Ref, seq<nat>>

    ghost function Snap(): Heap
      reads this
    {
      Heap(mem, recs, nextSame, nextAll, sizebases, allbase, roots, all, same, free)
    }

    /** The heap at boot: nothing allocated, no pageref pages. */
    constructor ()
      ensures Settled(Snap()) && recs == map[] && forall x :: !Live(Snap(), x)
    {
      mem, recs, nextSame, nextAll := map[], map[], map[], map[];
      sizebases, allbase := seq(NSIZES, _ => 0), 0;
      roots := seq(NUM_PAGEREFPAGES, _ => Root(0, seq(REFS_PER_PAGE, _ => false), 0));
      all, same, free := [], seq(NSIZES, _ => []), map[];
      new;
      NoneTrue(seq(REFS_PER_PAGE, _ => false));
      assert forall k :: 0 <= k < NSIZES ==> SameOk(Snap(), k);
    }

    /** blocktype: the smallest size class that fits; NSIZES stands for the
        panic when there is none. */
    method Blocktype(sz: nat) returns (bt: nat)
      ensures bt <= NSIZES
      ensures bt < NSIZES ==> sz <= Size(bt) && forall k :: 0 <= k < bt ==> Size(k) < sz
      ensures bt == NSIZES <==> sz > 2048
    {
      bt := 0;
      while bt < NSIZES
        invariant bt <= NSIZES
        invariant forall k :: 0 <= k < bt ==> Size(k) < sz
      {
        if sz <= Size(bt) { assert Size(bt) <= 2048; return; }
        bt := bt + 1;
      }
      assert Size(7) == 2048;
    }

    /** The search loop of subpage_kmalloc: the first record of the size class
        with a free block, 0 if there is none. */
    method FindFree(bt: nat) returns (pr: Ref)
      requires Inv(Snap()) && bt < NSIZES
      ensures pr != 0 ==> pr in recs && recs[pr].bt == bt && recs[pr].nfree > 0
      ensures pr == 0 ==> forall r :: r in recs && recs[r].bt == bt ==> recs[r].nfree == 0
    {
      ghost var h, i := Snap(), 0;
      assert SameOk(h, bt);
      ChainMembers(nextSame, sizebases[bt], same[bt]);
      ChainSuffix(nextSame, sizebases[bt], same[bt], 0);
      pr := sizebases[bt];
      while pr != 0
        invariant 0 <= i <= |same[bt]|
        invariant pr == if i < |same[bt]| then same[bt][i] else 0
        invariant forall k :: 0 <= k < i ==> recs[same[bt][k]].nfree == 0
        decreases |same[bt]| - i
      {
        assert same[bt][i] in same[bt];
        if recs[pr].nfree > 0 { return; }
        ChainSuffix(nextSame, sizebases[bt], same[bt], i + 1);
        pr := nextSame[pr];
        i := i + 1;
      }
    }

    /** doalloc. The KASSERTs in it hold. */
    method TakeBlock(pr: Ref) returns (p: nat)
      requires pr in recs && pr in free && RecOk(mem, recs[pr], free[pr]) && recs[pr].nfree > 0
      modifies this
      ensures old(free[pr]) != [] && Snap() == Pop(old(Snap()), pr)
      ensures p == old(free[pr])[0] != 0
    {
      PopRec(mem, recs[pr], free[pr]);
      assert recs[pr].off < PAGE_SIZE;
      var prpage := recs[pr].page;
      var fla := prpage + recs[pr].off;
      p := fla;
      var fl := mem[fla];
      var nfree := recs[pr].nfree - 1;
      if fl != 0 {
        assert nfree > 0 && fl - prpage < PAGE_SIZE;
        recs := recs[pr := recs[pr].(off := fl - prpage, nfree := nfree)];
      } else {
        assert nfree == 0;
        recs := recs[pr := recs[pr].(off := INVALID_OFFSET, nfree := nfree)];
      }
      free := free[pr := free[pr][1..]];
    }

    /** subpage_kmalloc up to the point where it gives up the lock: a block from
        a page that has one, or 0. */
    method TryAlloc(bt: nat) returns (p: nat, ghost pr: Ref)
      requires Settled(Snap()) && bt < NSIZES
      modifies this
      ensures p == 0 ==> Snap() == old(Snap()) && forall r :: r in recs && recs[r].bt == bt ==> recs[r].nfree == 0
      ensures p != 0 ==> TookBlock(old(Snap()), Snap(), pr, bt, p)
    {
      ghost var h := Snap();
      var r := FindFree(bt);
      pr := r;
      if r == 0 { return 0, 0; }
      assert RecOk(mem, recs[r], free[r]);
      p := TakeBlock(r);
    }

    /** The loop that threads a fresh page: block i links to block i - 1. */
    method InitFreeList(page: nat, bt: nat) returns (fl: nat)
      requires bt < NSIZES && page > 0 && page % PAGE_SIZE == 0
      modifies this`mem
      ensures fl == page + (PerPage(bt) - 1) * Size(bt)
      ensures SameOffPage(old(mem), mem, page)
      ensures RecOk(mem, PageRef(page, bt, fl - page, PerPage(bt)), Descending(page, Size(bt), PerPage(bt)))
    {
      var n, size := PerPage(bt), Size(bt);
      fl := page;
      mem := mem[fl := 0];
      var i := 1;
      assert Descending(page, size, 1) == [page] + [];
      assert Chain(mem, page, [page]);
      while i < n
        invariant 1 <= i <= n
        invariant fl == page + (i - 1) * size
        invariant SameOffPage(old(mem), mem, page)
        invariant Chain(mem, fl, Descending(page, size, i))
      {
        DescendingFacts(page, size, i);
        StepFits(i, size, n);
        ChainPush(mem, fl, Descending(page, size, i), page + i * size);
        fl := page + i * size;
        mem := mem[fl := page + (i - 1) * size];
        assert fl != mem[fl];
        i := i + 1;
      }
      DescendingFacts(page, size, n);
    }

    /** Puts a record for a freshly threaded page in front of both lists. */
    method LinkRecord(pr: Ref, page: nat, bt: nat, fl: nat, ghost d: seq<nat>)
      requires bt < NSIZES && |sizebases| == |same| == NSIZES && fl == page + (PerPage(bt) - 1) * Size(bt)
      modifies this
      ensures Snap() == Insert(old(Snap()), pr, page, bt, old(mem), d)
    {
      recs := recs[pr := PageRef(page, bt, fl - page, PerPage(bt))];
      nextSame, sizebases := nextSame[pr := sizebases[bt]], sizebases[bt := pr];
      nextAll, allbase := nextAll[pr := allbase], pr;
      all, same, free := [pr] + all, same[bt := [pr] + same[bt]], free[pr := d];
    }

    /** subpage_kmalloc once it has a page and a pageref: threads the page, puts
        the record on both lists and takes the first block. */
    method AddPage(pr: Ref, page: nat, bt: nat) returns (p: nat)
      requires bt < NSIZES && |sizebases| == |same| == NSIZES && page > 0 && page % PAGE_SIZE == 0
      modifies this
      ensures AddedPage(old(Snap()), Snap(), pr, page, bt, p)
    {
      ghost var h := Snap();
      var fl := InitFreeList(page, bt);
      LinkRecord(pr, page, bt, fl, Descending(page, Size(bt), PerPage(bt)));
      p := TakeBlock(pr);
    }

    /** allocpageref's search: marks the first free slot of the first root that
        has one; w is NUM_PAGEREFPAGES if all are full. */
    method ReserveSlot() returns (w: nat, slot: nat)
      requires RootsOk(roots)
      modifies this`roots
      ensures w <= |roots| == old(|roots|) && forall i :: 0 <= i < w ==> old(roots)[i].numinuse == REFS_PER_PAGE
      ensures w == |roots| ==> roots == old(roots)
      ensures w < |roots| ==> slot < REFS_PER_PAGE && !old(roots)[w].inuse[slot] &&
                              (forall k :: 0 <= k < slot ==> old(roots)[w].inuse[k]) &&
                              roots == old(roots)[w := SetBit(old(roots)[w], slot, true)]
    {
      w, slot := 0, 0;
      while w < |roots|
        invariant w <= |roots| && roots == old(roots)
        invariant forall i :: 0 <= i < w ==> roots[i].numinuse == REFS_PER_PAGE
      {
        CountBound(roots[w].inuse);
        if roots[w].numinuse < REFS_PER_PAGE {
          slot := FirstClear(roots[w].inuse);
          roots := roots[w := SetBit(roots[w], slot, true)];
          return;
        }
        w := w + 1;
      }
    }

    /** allocpagerefpage once it has the lock again, with the page it got, or 0:
        the root keeps it unless it has one by now, in which case the page must go
        back. Without any page the caller returns NULL, and its slot stays marked. */
    method InstallRefPage(w: nat, va: nat) returns (o: RefPageOutcome)
      requires w < |roots|
      modifies this`roots
      ensures o == NoPage <==> old(roots)[w].page == 0 && va == 0
      ensures o == MustDiscard <==> old(roots)[w].page != 0 && va != 0
      ensures roots == if old(roots)[w].page == 0 then old(roots)[w := old(roots)[w].(page := va)] else old(roots)
    {
      if va != 0 {
        if roots[w].page != 0 { return MustDiscard; }
        roots := roots[w := roots[w].(page := va)];
      }
      o := if roots[w].page == 0 then NoPage else Ready;
    }

    /** freepageref. ok is false if one of its KASSERTs fails; given that pr is
        reserved that happens exactly if an earlier root has no page. */
    method FreePageRef(pr: Ref) returns (ok: bool, ghost w: nat)
      requires RootsOk(roots) && Reserved(roots, pr)
      modifies this`roots
      ensures w < |old(roots)| && Marked(old(roots)[w], pr)
      ensures ok <==> forall i :: 0 <= i < w ==> old(roots)[i].page != 0
      ensures !ok ==> roots == old(roots)
      ensures ok ==> old(roots)[w].numinuse > 0 &&
                     roots == old(roots)[w := SetBit(old(roots)[w], SlotIn(old(roots)[w], pr), false)]
    {
      w :| 0 <= w < |roots| && Marked(roots[w], pr);
      var i := 0;
      while i < |roots|
        invariant 0 <= i <= w && roots == old(roots)
        invariant forall k :: 0 <= k < i ==> roots[k].page != 0
      {
        var root := roots[i];
        if root.page == 0 {
          assert i < w && root.numinuse == REFS_PER_PAGE;
          if root.numinuse != 0 { return false, w; }
        } else if root.page <= pr < root.page + PAGE_SIZE {
          SlotUnique(roots, i, w, pr);
          ClearKeeps(roots, w, pr);
          var j := (pr - root.page) / REF_SIZE;
          assert root.inuse[j];
          roots := roots[i := SetBit(root, j, false)];
          return true, w;
        }
        i := i + 1;
      }
    }

    /** fill_deadbeef on a block. */
    method FillDeadbeef(a: nat, len: nat)
      modifies this`mem
      ensures SameButBlock(old(mem), mem, a, len) && Deadbeef(mem, a, 0, len / 4)
    {
      var i := 0;
      while i < len / 4
        invariant 0 <= i <= len / 4 && SameButBlock(old(mem), mem, a, len) && Deadbeef(mem, a, 0, i)
      {
        mem := mem[a + 4 * i := 0xdeadbeef];
        i := i + 1;
      }
    }

    /** The search loop of subpage_kfree: the record whose page holds ptr. */
    method FindRecord(ptr: nat) returns (pr: Ref)
      requires AllOk(Snap())
      ensures pr != 0 ==> pr in recs && OnPage(recs[pr].page, ptr)
      ensures pr == 0 ==> forall r :: r in recs ==> !OnPage(recs[r].page, ptr)
    {
      ghost var i := 0;
      ChainMembers(nextAll, allbase, all);
      ChainSuffix(nextAll, allbase, all, 0);
      pr := allbase;
      while pr != 0
        invariant 0 <= i <= |all| && pr == if i < |all| then all[i] else 0
        invariant forall k :: 0 <= k < i ==> !OnPage(recs[all[k]].page, ptr)
        decreases |all| - i
      {
        assert all[i] in all;
        if recs[pr].page <= ptr < recs[pr].page + PAGE_SIZE { return; }
        ChainSuffix(nextAll, allbase, all, i + 1);
        pr := nextAll[pr];
        i := i + 1;
      }
    }

    /** The first loop of remove_lists. */
    method RemoveSame(pr: Ref, bt: nat) returns (ghost ib: nat)
      requires bt < NSIZES == |sizebases| == |same|
      requires Chain(nextSame, sizebases[bt], same[bt]) && NoDup(same[bt]) && pr in same[bt]
      modifies this`nextSame, this`sizebases, this`same
      ensures ib < |old(same[bt])| && old(same[bt])[ib] == pr && same == old(same)[bt := Without(old(same[bt]), ib)]
      ensures |sizebases| == NSIZES && Chain(nextSame, sizebases[bt], same[bt])
      ensures forall k :: 0 <= k < NSIZES && k != bt ==> sizebases[k] == old(sizebases[k])
      ensures forall y :: y in old(nextSame) && y !in old(same[bt]) ==> y in nextSame && nextSame[y] == old(nextSame[y])
    {
      var next, head;
      next, head, ib := Unlink(nextSame, sizebases[bt], pr, same[bt]);
      nextSame, sizebases := next, sizebases[bt := head];
      same := same[bt := Without(same[bt], ib)];
    }

    /** The second loop of remove_lists. */
    method RemoveAll(pr: Ref) returns (ghost ia: nat)
      requires Chain(nextAll, allbase, all) && NoDup(all) && pr in all
      modifies this`nextAll, this`allbase, this`all
      ensures ia < |old(all)| && old(all)[ia] == pr && all == Without(old(all), ia) && Chain(nextAll, allbase, all)
    {
      nextAll, allbase, ia := Unlink(nextAll, allbase, pr, all);
      all := Without(all, ia);
    }

    /** remove_lists: takes a record off both its lists. */
    method RemoveLists(pr: Ref) returns (ghost ia: nat, ghost ib: nat)
      requires |sizebases| == |same| == NSIZES && pr in recs && recs[pr].bt < NSIZES
      requires Chain(nextAll, allbase, all) && NoDup(all) && pr in all
      requires Chain(nextSame, sizebases[recs[pr].bt], same[recs[pr].bt]) && NoDup(same[recs[pr].bt]) && pr in same[recs[pr].bt]
      modifies this`nextSame, this`nextAll, this`sizebases, this`allbase, this`all, this`same, this`recs, this`free
      ensures UnlinkedAt(old(Snap()), Snap(), pr, ia, ib)
    {
      ib := RemoveSame(pr, recs[pr].bt);
      ia := RemoveAll(pr);
      recs, free := recs - {pr}, free - {pr};
    }

    /** subpage_kfree when the whole page has become free. */
    method DropPage(pr: Ref) returns (o: FreeOutcome, ghost ia: nat, ghost ib: nat)
      requires |sizebases| == |same| == NSIZES && AllOk(Snap())
      requires pr in recs && recs[pr].bt < NSIZES && SameOk(Snap(), recs[pr].bt)
      requires RootsOk(roots) && Reserved(roots, pr)
      modifies this
      ensures o == Freed(old(recs[pr].page)) || o == RootAssertion
      ensures o.Freed? ==> UnlinkedAt(old(Snap()), Snap().(roots := old(roots)), pr, ia, ib) && ClearedSlot(old(roots), roots, pr)
      ensures o == RootAssertion <==> Gap(old(roots), pr)
    {
      var page := recs[pr].page;
      ia, ib := RemoveLists(pr);
      var ok, w := FreePageRef(pr);
      GapIff(old(roots), pr, w);
      o := if ok then Freed(page) else RootAssertion;
    }

    /** Overwrites block a and links it in front of record r's free list. */
    method PushBlock(r: Ref, a: nat)
      requires r in recs && r in free && recs[r].bt < NSIZES && recs[r].page <= a
      modifies this`mem, this`recs, this`free
      ensures SameButBlock(old(mem), mem, a, Size(old(recs[r].bt)))
      ensures Deadbeef(mem, a, 1, Size(old(recs[r].bt)) / 4)
      ensures Snap() == Push(old(Snap()), r, a, mem)
    {
      FillDeadbeef(a, Size(recs[r].bt));
      var prpage := recs[r].page;
      if recs[r].off == INVALID_OFFSET {
        mem := mem[a := 0];
      } else {
        mem := mem[a := prpage + recs[r].off];
      }
      recs := recs[r := recs[r].(off := a - prpage, nfree := recs[r].nfree + 1)];
      free := free[r := [a] + free[r]];
      assert mem == mem[a := HeadOf(old(recs[r]))];
    }

    /** The locked part of subpage_kfree. */
    method FreeBlock(ptr: nat) returns (o: FreeOutcome, ghost pr: Ref)
      requires Settled(Snap())
      requires forall r :: BlockOnRec(Snap(), r, ptr) ==> ptr !in free[r]
      modifies this
      ensures o == NotOurs || o == InvalidAddress ==> Snap() == old(Snap()) && forall r :: !BlockOnRec(Snap(), r, ptr)
      ensures o == NotOurs <==> forall r :: r in old(recs) ==> !OnPage(old(recs)[r].page, ptr)
      ensures o.Freed? ==> FreedBlock(old(Snap()), Snap(), pr, ptr, o.emptied)
      ensures o == InvalidAddress <==> exists r :: Misplaced(old(Snap()), r, ptr)
      ensures o == RootAssertion <==> exists r :: LastBlockBehindGap(old(Snap()), r, ptr)
    {
      ghost var h := Snap();
      pr := 0;
      var r := FindRecord(ptr);
      if r == 0 { return NotOurs, 0; }
      pr := r;
      OnePage(h, r, ptr);
      var bt := recs[r].bt;
      assert Misplaced(h, r, ptr) <==> (ptr - recs[r].page) % Size(bt) != 0;
      if (ptr - recs[r].page) % Size(bt) != 0 { return InvalidAddress, pr; }
      o := FreeOn(r, ptr);
    }

    method FreeOn(r: Ref, ptr: nat) returns (o: FreeOutcome)
      requires Settled(Snap()) && BlockOnRec(Snap(), r, ptr) && ptr !in free[r]
      modifies this
      ensures o.Freed? ==> FreedBlock(old(Snap()), Snap(), r, ptr, o.emptied) && Deadbeef(mem, ptr, 1, Size(old(recs[r].bt)) / 4)
      ensures o.Freed? || o == RootAssertion
      ensures o == RootAssertion <==> LastBlockBehindGap(old(Snap()), r, ptr)
    {
      ghost var h := Snap();
      PushBlock(r, ptr);
      ghost var h1 := Snap();
      PushPlaces(h, r, ptr, mem);
      assert recs[r].nfree <= PerPage(recs[r].bt);
      if recs[r].nfree == PerPage(recs[r].bt) {
        ghost var ia, ib;
        o, ia, ib := DropPage(r);
      } else {
        o := Freed(0);
      }
    }
  }

  /** Words lo, .., hi - 1 of the block at a are overwritten. */
  predicate Deadbeef(mem: map<nat, nat>, a: nat, lo: nat, hi: nat) {
    forall i :: lo <= i < hi ==> a + 4 * i in mem && mem[a + 4 * i] == 0xdeadbeef
  }

  predicate OnPage(page: nat, a: nat) { page <= a < page + PAGE_SIZE }

  /** Pushing a block leaves both lists of records in order. */
  lemma PushPlaces(h: Heap, r: Ref, a: nat, mem': map<nat, nat>)
    requires Settled(h) && BlockOnRec(h, r, a)
    ensures var h1 := Push(h, r, a, mem');
      |h1.sizebases| == |h1.same| == NSIZES && AllOk(h1) && SameOk(h1, h.recs[r].bt) &&
      RootsOk(h1.roots) && Reserved(h1.roots, r) && h.recs[r].nfree < PerPage(h.recs[r].bt)
  {
    PushSamePlaces(h, r, a, mem');
    ListsFrame(h, Push(h, r, a, mem'));
  }

  lemma PushSamePlaces(h: Heap, r: Ref, a: nat, mem': map<nat, nat>)
    requires r in h.recs && r in h.free && h.recs[r].page <= a
    ensures SamePlaces(h, Push(h, r, a, mem'))
  {}

  lemma GapIff(roots: seq<Root>, r: Ref, w: nat)
    requires RootsOk(roots) && w < |roots| && Marked(roots[w], r)
    ensures Gap(roots, r) <==> exists i :: 0 <= i < w && roots[i].page == 0
  {
    if Gap(roots, r) {
      var i, v :| 0 <= i < v < |roots| && roots[i].page == 0 && Marked(roots[v], r);
      SlotUnique(roots, v, w, r);
    }
  }

  /** What remove_lists does to a record at positions ia and ib of its lists. */
  ghost predicate UnlinkedAt(h: Heap, h': Heap, pr: Ref, ia: nat, ib: nat) {
    Position(h, pr, ia, ib) && |h'.sizebases| == |h.sizebases| == NSIZES && h'.mem == h.mem && h'.roots == h.roots &&
    h'.recs == h.recs - {pr} && h'.free == h.free - {pr} &&
    var bt := h.recs[pr].bt;
    h'.all == Without(h.all, ia) && h'.same == h.same[bt := Without(h.same[bt], ib)] &&
    Chain(h'.nextAll, h'.allbase, h'.all) && Chain(h'.nextSame, h'.sizebases[bt], h'.same[bt]) &&
    (forall y :: y in h.nextSame && y !in h.same[bt] ==> y in h'.nextSame && h'.nextSame[y] == h.nextSame[y]) &&
    forall k :: 0 <= k < NSIZES && k != bt ==> h'.sizebases[k] == h.sizebases[k]
  }

  /** roots' is roots with the slot of r cleared. */
  ghost predicate ClearedSlot(roots: seq<Root>, roots': seq<Root>, r: Ref)
    requires RootsOk(roots)
  {
    exists w :: 0 <= w < |roots| && Marked(roots[w], r) && roots[w].numinuse > 0 &&
                roots' == roots[w := SetBit(roots[w], SlotIn(roots[w], r), false)]
  }

  /** Some root before the one that holds r has no page. */
  ghost predicate Gap(roots: seq<Root>, r: Ref)
    requires RootsOk(roots)
  {
    exists i, w :: 0 <= i < w < |roots| && roots[i].page == 0 && Marked(roots[w], r)
  }

  /** Block a, live on record pr's page, has been freed; `emptied` is that page if
      it was the last live block there, else 0. */
  ghost predicate FreedBlock(h: Heap, h': Heap, pr: Ref, a: nat, emptied: nat) {
    BlockOnRec(h, pr, a) && pr in h.free && a !in h.free[pr] && RootsOk(h.roots) &&
    SameButBlock(h.mem, h'.mem, a, Size(h.recs[pr].bt)) &&
    var h1 := Push(h, pr, a, h'.mem);
    if h.recs[pr].nfree + 1 < PerPage(h.recs[pr].bt)
    then emptied == 0 && h' == h1
    else emptied == h.recs[pr].page && (exists ia, ib :: UnlinkedAt(h1, h'.(roots := h.roots), pr, ia, ib)) &&
         ClearedSlot(h.roots, h'.roots, pr)
  }

  ghost predicate LastBlockBehindGap(h: Heap, pr: Ref, a: nat) {
    BlockOnRec(h, pr, a) && h.recs[pr].nfree + 1 == PerPage(h.recs[pr].bt) && RootsOk(h.roots) && Gap(h.roots, pr)
  }

  /** a is on record r's page but not where a block starts. */
  ghost predicate Misplaced(h: Heap, r: Ref, a: nat) {
    r in h.recs && h.recs[r].bt < NSIZES && OnPage(h.recs[r].page, a) && !MultipleFrom(h.recs[r].page, Size(h.recs[r].bt), a)
  }

  lemma OnePage(h: Heap, r: Ref, a: nat)
    requires RecsOk(h) && PagesDistinct(h) && r in h.recs && h.recs[r].page <= a < h.recs[r].page + PAGE_SIZE
    ensures forall q :: BlockOnRec(h, q, a) || Misplaced(h, q, a) ==> q == r
  {
    forall q | BlockOnRec(h, q, a) || Misplaced(h, q, a) ensures q == r {
      assert RecOk(h.mem, h.recs[q], h.free[q]) && RecOk(h.mem, h.recs[r], h.free[r]);
      if q != r { PagesApart(h.recs[r].page, h.recs[q].page, a); }
    }
  }

  lemma UnlinkedLists(h: Heap, h': Heap, pr: Ref, ia: nat, ib: nat)
    requires ListsOk(h) && UnlinkedAt(h, h', pr, ia, ib)
    ensures Deleted(h, h', pr)
  {
    WithoutMembers(h.all, ia);
    assert AllOk(h');
    forall k | 0 <= k < NSIZES ensures SameOk(h', k) {
      assert SameOk(h, k) && SameOk(h, h.recs[pr].bt);
      if k == h.recs[pr].bt { WithoutMembers(h.same[k], ib); }
      else { ChainFrame(h.nextSame, h'.nextSame, h.sizebases[k], h.same[k]); }
    }
  }

  /** `*guy = pr->next` in remove_lists: walks the list from head and splices x
      out. */
  method Unlink(next: map<nat, nat>, head: nat, x: nat, ghost s: seq<nat>)
    returns (next': map<nat, nat>, head': nat, ghost i: nat)
    requires Chain(next, head, s) && NoDup(s) && x in s
    ensures i < |s| && s[i] == x && Chain(next', head', Without(s, i))
    ensures forall y :: y in next && y !in s ==> y in next' && next'[y] == next[y]
  {
    next', head', i := next, head, 0;
    var prev, cur := 0, head;
    ChainMembers(next, head, s);
    ChainSuffix(next, head, s, 0);
    while cur != x
      invariant 0 <= i < |s| && cur == s[i] && x in s[i..]
      invariant prev == if i == 0 then 0 else s[i - 1]
      decreases |s| - i
    {
      ChainSuffix(next, head, s, i + 1);
      assert s[i..] == [s[i]] + s[i + 1..];
      prev, cur := cur, next[cur];
      i := i + 1;
    }
    ChainSplice(next, head, s, i);
    assert i > 0 ==> s[i - 1] in s;
    if prev == 0 { head' := next[cur]; } else { next' := next[prev := next[cur]]; }
  }

  predicate WordFull(inuse: seq<bool>, i: nat)
    requires i * 32 + 32 <= |inuse|
  {
    forall j :: i * 32 <= j < i * 32 + 32 ==> inuse[j]
  }

  /** The word and bit loops of allocpageref. */
  method FirstClear(inuse: seq<bool>) returns (slot: nat)
    requires |inuse| == REFS_PER_PAGE && exists j :: 0 <= j < |inuse| && !inuse[j]
    ensures slot < REFS_PER_PAGE && !inuse[slot] && forall j :: 0 <= j < slot ==> inuse[j]
  {
    slot := 0;
    var i := 0;
    while i < REFS_PER_PAGE / 32
      invariant 0 <= i <= REFS_PER_PAGE / 32
      invariant forall j :: 0 <= j < i * 32 ==> inuse[j]
    {
      if !WordFull(inuse, i) {
        var j := 0;
        while j < 32
          invariant 0 <= j <= 32
          invariant forall k :: 0 <= k < i * 32 + j ==> inuse[k]
        {
          if !inuse[i * 32 + j] { return i * 32 + j; }
          j := j + 1;
        }
        assert false;
      }
      i := i + 1;
    }
    assert false;
  }

  /** A new record pr for `page` has been added and its first block p taken. */
  ghost predicate AddedPage(h: Heap, h': Heap, pr: Ref, page: nat, bt: nat, p: nat) {
    bt < NSIZES && |h.sizebases| == |h.same| == NSIZES &&
    var d := Descending(page, Size(bt), PerPage(bt));
    RecOk(h'.mem, PageRef(page, bt, (PerPage(bt) - 1) * Size(bt), PerPage(bt)), d) &&
    SameOffPage(h.mem, h'.mem, page) && d != [] && p == d[0] != 0 &&
    h' == Pop(Insert(h, pr, page, bt, h'.mem, d), pr)
  }

  /** A block p of size class bt has been taken from existing record pr. */
  ghost predicate TookBlock(h: Heap, h': Heap, pr: Ref, bt: nat, p: nat) {
    pr in h.recs && pr in h.free && h.recs[pr].bt == bt && h.free[pr] != [] && h.recs[pr].nfree > 0 &&
    p == h.free[pr][0] && h' == Pop(h, pr)
  }

  /** The addresses of blocks n-1, .., 1, 0 of a page. */
  function Descending(page: nat, size: nat, n: nat): seq<nat> {
    if n == 0 then [] else [page + (n - 1) * size] + Descending(page, size, n - 1)
  }

  lemma StepFits(i: nat, size: nat, n: nat)
    requires 0 < i < n && size > 0
    ensures (i - 1) * size + size == i * size && i * size + size <= n * size
  {
    Words.MulMono(i + 1, n, size);
  }

  /** All of d are multiples of size above page, below the limit. */
  ghost predicate Within(d: seq<nat>, page: nat, size: nat, limit: nat)
    requires size > 0
  {
    forall a :: a in d ==> a < page + limit && MultipleFrom(page, size, a)
  }

  lemma {:induction false} DescendingFacts(page: nat, size: nat, n: nat)
    requires size > 0
    ensures var d := Descending(page, size, n); |d| == n && NoDup(d) && Within(d, page, size, n * size)
  {
    if n > 0 {
      DescendingFacts(page, size, n - 1);
      Words.MultipleMod(size, n - 1);
      assert (n - 1) * size + size == n * size;
      ConsFacts(page, size, (n - 1) * size, Descending(page, size, n - 1));
    }
  }

  lemma ConsFacts(page: nat, size: nat, top: nat, e: seq<nat>)
    requires size > 0 && top % size == 0 && NoDup(e) && Within(e, page, size, top)
    ensures NoDup([page + top] + e) && Within([page + top] + e, page, size, top + size)
  {
    var d := [page + top] + e;
    assert page + top !in e;
    assert forall j :: 1 <= j < |d| ==> d[j] == e[j - 1] && d[j] in e;
    forall i, j | 1 <= i < j < |d| ensures d[i] != d[j] {}
  }

  lemma {:induction false} NoneTrue(s: seq<bool>)
    requires forall j :: 0 <= j < |s| ==> !s[j]
    ensures CountTrue(s) == 0
  {
    if s != [] { NoneTrue(s[..|s| - 1]); }
  }
}
