/** kern/vm/kmalloc.c under concurrency. Threads run the locked sections of
    kmalloc and kfree in any interleaving; between sections they hold pages from
    alloc_kpages, or a marked pageref slot, that no list knows of yet. */
module KmallocRuns {
  import Words
  import opened Common
  import Chains
  import opened HeapModel
  import opened Kmalloc

  type Tid = nat

  /** What a thread in kmalloc or kfree has in hand while it does not hold the
      lock. sz and bt are the request; w and slot a pageref slot it marked. */
  datatype Local =
    | Idle
    | NeedPage(sz: nat, bt: nat)
    | HavePage(sz: nat, bt: nat, page: nat)
    | NeedRefPage(sz: nat, bt: nat, page: nat, w: nat, slot: nat)
    | HaveRefPage(sz: nat, bt: nat, page: nat, w: nat, slot: nat, va: nat)
    | Discard(sz: nat, bt: nat, page: nat, w: nat, slot: nat, va: nat)
    | Resume(sz: nat, bt: nat, page: nat, w: nat, slot: nat)
    | Return(page: nat)

  /** Who has a page that alloc_kpages gave out. */
  datatype Owner = Rec(r: Ref) | RootPage(w: nat) | Big(base: nat) | Held(t: Tid) | HeldRef(t: Tid)

  /** `own` is the page allocator's ledger; `big` maps each whole-page allocation
      to its number of pages. */
  datatype State = State(heap: Heap, big: map<nat, nat>, own: map<nat, Owner>, local: map<Tid, Local>)

  function At(s: State, t: Tid): Local { if t in s.local then s.local[t] else Idle }

  predicate Owns(own: map<nat, Owner>, p: nat, o: Owner) { p in own && own[p] == o }

  predicate Aligned(p: nat) { p > 0 && p % PAGE_SIZE == 0 }

  // ------------------------------------------------------------ invariant

  /** Slot number `slot` of root w is marked but no record lives there, and
      earlier roots have a page or are used up. */
  ghost predicate SlotHeld(h: Heap, w: nat, slot: nat) {
    w < |h.roots| == NUM_PAGEREFPAGES && |h.roots[w].inuse| == REFS_PER_PAGE && slot < REFS_PER_PAGE &&
    h.roots[w].inuse[slot] &&
    (forall r :: r in h.recs ==> !RefAt(h.roots[w], slot, r)) &&
    forall i :: 0 <= i < w ==> h.roots[i].page != 0 || h.roots[i].numinuse == REFS_PER_PAGE
  }

  predicate HasSlotNo(l: Local) { l.NeedRefPage? || l.HaveRefPage? || l.Discard? || l.Resume? }
  predicate HasPage(l: Local) { !l.Idle? && !l.NeedPage? }
  predicate HasRef(l: Local) { (l.HaveRefPage? && l.va != 0) || l.Discard? }
  predicate HasRequest(l: Local) { !l.Idle? && !l.Return? }

  ghost predicate LocalOk(h: Heap, own: map<nat, Owner>, t: Tid, l: Local) {
    (HasRequest(l) ==> l.bt < NSIZES && l.sz <= Size(l.bt)) &&
    (HasPage(l) ==> Aligned(l.page) && Owns(own, l.page, Held(t))) &&
    (HasSlotNo(l) ==> SlotHeld(h, l.w, l.slot)) &&
    (HasRef(l) ==> Aligned(l.va) && Owns(own, l.va, HeldRef(t))) &&
    (l.Discard? || l.Resume? ==> h.roots[l.w].page != 0)
  }

  ghost predicate Locals(s: State) {
    (forall t :: LocalOk(s.heap, s.own, t, At(s, t))) &&
    forall t, u :: t != u && HasSlotNo(At(s, t)) && HasSlotNo(At(s, u)) ==>
      At(s, t).w != At(s, u).w || At(s, t).slot != At(s, u).slot
  }

  ghost predicate OwnRecs(s: State) {
    forall r :: r in s.heap.recs ==> Owns(s.own, s.heap.recs[r].page, Rec(r))
  }

  ghost predicate OwnRoots(s: State) {
    forall w :: 0 <= w < |s.heap.roots| && s.heap.roots[w].page != 0 ==> Owns(s.own, s.heap.roots[w].page, RootPage(w))
  }

  /** p is one of the n pages from base on. */
  predicate PageIn(base: nat, n: nat, p: nat) {
    base <= p < base + n * PAGE_SIZE && p % PAGE_SIZE == 0
  }

  ghost predicate OwnBig(s: State) {
    forall b :: b in s.big ==> Aligned(b) && s.big[b] > 0 && forall p :: PageIn(b, s.big[b], p) ==> Owns(s.own, p, Big(b))
  }

  /** Page p is in use for what it was got for. */
  predicate Accounted(s: State, p: nat, o: Owner) {
    match o
    case Rec(r) => r in s.heap.recs && s.heap.recs[r].page == p
    case RootPage(w) => w < |s.heap.roots| && s.heap.roots[w].page == p
    case Big(b) => b in s.big && PageIn(b, s.big[b], p)
    case Held(t) => HasPage(At(s, t)) && At(s, t).page == p
    case HeldRef(t) => HasRef(At(s, t)) && At(s, t).va == p
  }

  /** No page given out is forgotten. */
  ghost predicate NoLeak(s: State) {
    forall p :: p in s.own ==> Aligned(p) && Accounted(s, p, s.own[p])
  }

  ghost predicate Inv(s: State) {
    Settled(s.heap) && OwnRecs(s) && OwnRoots(s) && OwnBig(s) && Locals(s) && NoLeak(s)
  }

  // ---------------------------------------------------------------- steps

  datatype Event =
    | Request(t: Tid, sz: nat)
    | PageArrives(t: Tid, page: nat)
    | Reserve(t: Tid)
    | RefPageArrives(t: Tid, va: nat)
    | Relock(t: Tid)
    | DiscardDone(t: Tid)
    | ResumeLock(t: Tid)
    | Free(t: Tid, ptr: nat)
    | GiveBack(t: Tid)
    | BigRequest(t: Tid, sz: nat, base: nat)
    | BigFree(t: Tid, ptr: nat)
    | Write(x: nat, v: nat)

  /** kmalloc's page count, in 32-bit arithmetic. */
  function PagesFor(sz: nat): nat { Words.Word(sz + PAGE_SIZE - 1) / PAGE_SIZE }

  /** alloc_kpages: zero, or aligned pages that nobody has. */
  predicate FreshPages(own: map<nat, Owner>, base: nat, n: nat) {
    base == 0 || (Aligned(base) && forall p :: PageIn(base, n, p) ==> p !in own)
  }

  function Goto(s: State, t: Tid, l: Local): State { s.(local := s.local[t := l]) }

  function Claim(s: State, p: nat, o: Owner): State { s.(own := s.own[p := o]) }

  function Unclaim(s: State, p: nat): State { s.(own := s.own - {p}) }

  /** From a reserved slot whose root has a page to the block returned: pr is
      known, so the page is added and its first block handed out. */
  ghost predicate Finish(s: State, t: Tid, s': State, p: nat, w: nat, slot: nat, page: nat, bt: nat) {
    w < |s.heap.roots| &&
    var pr := s.heap.roots[w].page + slot * REF_SIZE;
    AddedPage(s.heap, s'.heap, pr, page, bt, p) &&
    s' == Goto(Claim(s, page, Rec(pr)), t, Idle).(heap := s'.heap)
  }

  /** s becomes s' by event e, which returns pointer p to its caller (0 if NULL or
      if the call is not over). */
  ghost predicate Step(s: State, e: Event, s': State, p: nat) {
    match e
    case Request(t, sz) =>
      At(s, t) == Idle && sz < 2048 && exists bt :: Fits(sz, bt) && StepRequest(s, t, sz, bt, s', p)
    case PageArrives(t, page) =>
      At(s, t).NeedPage? && p == 0 && FreshPages(s.own, page, 1) && s' == TakePage(s, t, page)
    case Reserve(t) => At(s, t).HavePage? && StepReserve(s, t, s', p)
    case RefPageArrives(t, va) =>
      At(s, t).NeedRefPage? && p == 0 && FreshPages(s.own, va, 1) && s' == TakeRefPage(s, t, va)
    case Relock(t) => At(s, t).HaveRefPage? && StepRelock(s, t, s', p)
    case DiscardDone(t) =>
      At(s, t).Discard? && p == 0 && s' == Discarded(s, t)
    case ResumeLock(t) => var l := At(s, t); l.Resume? && Finish(s, t, s', p, l.w, l.slot, l.page, l.bt)
    case Free(t, ptr) =>
      At(s, t) == Idle && p == 0 && Live(s.heap, ptr) && exists pr, emptied :: StepFree(s, t, ptr, pr, emptied, s')
    case GiveBack(t) => At(s, t).Return? && p == 0 && s' == GivenBack(s, t)
    case BigRequest(t, sz, base) =>
      At(s, t) == Idle && 2048 <= sz <= Words.W - PAGE_SIZE && FreshPages(s.own, base, PagesFor(sz)) && p == base &&
      if base == 0 then s' == s
      else s'.heap == s.heap && s'.local == s.local && s'.big == s.big[base := PagesFor(sz)] &&
           PagesClaimed(s.own, s'.own, base, PagesFor(sz))
    case BigFree(t, ptr) =>
      At(s, t) == Idle && p == 0 && ptr in s.big && s'.heap == s.heap && s'.local == s.local &&
      s'.big == s.big - {ptr} && PagesDropped(s.own, s'.own, ptr, s.big[ptr])
    case Write(x, v) =>
      p == 0 && Occupied(s, x) && s' == s.(heap := s.heap.(mem := s.heap.mem[x := v]))
  }

  /** alloc_kpages returns to a thread that wanted a page for blocks ... */
  function TakePage(s: State, t: Tid, page: nat): State
    requires At(s, t).NeedPage?
  {
    var l := At(s, t);
    if page == 0 then Goto(s, t, Idle) else Goto(Claim(s, page, Held(t)), t, HavePage(l.sz, l.bt, page))
  }

  /** ... or for pagerefs. */
  function TakeRefPage(s: State, t: Tid, va: nat): State
    requires At(s, t).NeedRefPage?
  {
    var l := At(s, t);
    var s1 := if va == 0 then s else Claim(s, va, HeldRef(t));
    Goto(s1, t, HaveRefPage(l.sz, l.bt, l.page, l.w, l.slot, va))
  }

  /** free_kpages of a pageref page that was not needed. */
  function Discarded(s: State, t: Tid): State
    requires At(s, t).Discard?
  {
    var l := At(s, t);
    Goto(Unclaim(s, l.va), t, Resume(l.sz, l.bt, l.page, l.w, l.slot))
  }

  /** free_kpages of a page of blocks. */
  function GivenBack(s: State, t: Tid): State
    requires At(s, t).Return?
  {
    Goto(Unclaim(s, At(s, t).page), t, Idle)
  }

  /** bt is the smallest size class for sz. */
  ghost predicate Fits(sz: nat, bt: nat) {
    bt < NSIZES && sz <= Size(bt) && forall k :: 0 <= k < bt ==> Size(k) < sz
  }

  /** subpage_kmalloc's first locked section. */
  ghost predicate StepRequest(s: State, t: Tid, sz: nat, bt: nat, s': State, p: nat) {
    if p == 0
    then s' == Goto(s, t, NeedPage(sz, bt)) && forall r :: r in s.heap.recs && s.heap.recs[r].bt == bt ==> s.heap.recs[r].nfree == 0
    else s' == s.(heap := s'.heap) && exists pr :: TookBlock(s.heap, s'.heap, pr, bt, p)
  }

  ghost predicate StepFree(s: State, t: Tid, ptr: nat, pr: Ref, emptied: nat, s': State) {
    FreedBlock(s.heap, s'.heap, pr, ptr, emptied) && (emptied != 0 ==> !Gap(s.heap.roots, pr)) &&
    s' == (if emptied == 0 then s else Goto(Claim(s, emptied, Held(t)), t, Return(emptied))).(heap := s'.heap)
  }

  /** allocpageref, as far as the lock lasts. */
  ghost predicate StepReserve(s: State, t: Tid, s': State, p: nat)
    requires At(s, t).HavePage?
  {
    var l := At(s, t);
    (p == 0 && s' == Goto(s, t, Return(l.page)) &&
      forall i :: 0 <= i < |s.heap.roots| ==> s.heap.roots[i].numinuse == REFS_PER_PAGE) ||
    exists w, slot :: FirstFree(s.heap.roots, w, slot) && StepMark(s, t, l, w, slot, s', p)
  }

  function MarkSlot(s: State, w: nat, slot: nat): State
    requires w < |s.heap.roots| && slot < |s.heap.roots[w].inuse|
  {
    s.(heap := s.heap.(roots := s.heap.roots[w := SetBit(s.heap.roots[w], slot, true)]))
  }

  ghost predicate StepMark(s: State, t: Tid, l: Local, w: nat, slot: nat, s': State, p: nat)
    requires l.HavePage? && FirstFree(s.heap.roots, w, slot)
  {
    var s1 := MarkSlot(s, w, slot);
    if s.heap.roots[w].page == 0
    then p == 0 && s' == Goto(s1, t, NeedRefPage(l.sz, l.bt, l.page, w, slot))
    else Finish(s1, t, s', p, w, slot, l.page, l.bt)
  }

  /** The new pageref page is given to its root, and t resumes with its slot. */
  function Installed(s: State, t: Tid): State
    requires At(s, t).HaveRefPage? && At(s, t).w < |s.heap.roots|
  {
    var l := At(s, t);
    var s1 := Claim(s, l.va, RootPage(l.w));
    Goto(s1, t, Resume(l.sz, l.bt, l.page, l.w, l.slot)).(
      heap := s.heap.(roots := s.heap.roots[l.w := s.heap.roots[l.w].(page := l.va)]))
  }

  /** The first slot that is free in the first root that is not full. */
  ghost predicate FirstFree(roots: seq<Root>, w: nat, slot: nat) {
    w < |roots| && slot < REFS_PER_PAGE <= |roots[w].inuse| && !roots[w].inuse[slot] &&
    (forall k :: 0 <= k < slot ==> roots[w].inuse[k]) &&
    forall i :: 0 <= i < w ==> roots[i].numinuse == REFS_PER_PAGE
  }

  /** allocpagerefpage and what follows, once it has the lock again. */
  ghost predicate StepRelock(s: State, t: Tid, s': State, p: nat)
    requires At(s, t).HaveRefPage?
  {
    var l := At(s, t);
    l.w < |s.heap.roots| &&
    if s.heap.roots[l.w].page == 0 then
      if l.va == 0 then p == 0 && s' == Goto(s, t, Return(l.page))
      else Finish(Installed(s, t), t, s', p, l.w, l.slot, l.page, l.bt)
    else
      if l.va == 0 then Finish(s, t, s', p, l.w, l.slot, l.page, l.bt)
      else p == 0 && s' == Goto(s, t, Discard(l.sz, l.bt, l.page, l.w, l.slot, l.va))
  }

  // ---------------------------------------------------------- what is live

  /** Byte x belongs to the live block at a on record r's page. */
  ghost predicate InBlock(h: Heap, r: Ref, a: nat, x: nat) {
    LiveOn(h, r, a) && a <= x < a + Size(h.recs[r].bt)
  }

  ghost predicate InSmall(h: Heap, x: nat) { exists r, a :: InBlock(h, r, a, x) }

  ghost predicate InBig(big: map<nat, nat>, x: nat) {
    exists b :: b in big && b <= x < b + big[b] * PAGE_SIZE
  }

  /** Byte x is in some client's hands. */
  ghost predicate Occupied(s: State, x: nat) { InSmall(s.heap, x) || InBig(s.big, x) }

  // ------------------------------------------------- steps keep the invariant

  /** A change inside records' free lists only. */
  lemma PlacesKept(s: State, s': State)
    requires OwnRecs(s) && OwnRoots(s) && OwnBig(s) && Locals(s) && NoLeak(s)
    requires s' == s.(heap := s'.heap) && SamePlaces(s.heap, s'.heap)
    ensures OwnRecs(s') && OwnRoots(s') && OwnBig(s') && Locals(s') && NoLeak(s')
  {
    forall t ensures LocalOk(s'.heap, s'.own, t, At(s', t)) { assert LocalOk(s.heap, s.own, t, At(s, t)); }
    forall p | p in s'.own ensures Aligned(p) && Accounted(s', p, s'.own[p]) { assert Accounted(s, p, s.own[p]); }
  }

  /** Only thread t's own pages change hands. */
  ghost predicate OwnSameBut(own: map<nat, Owner>, own': map<nat, Owner>, t: Tid) {
    (forall p :: p in own && own[p] != Held(t) && own[p] != HeldRef(t) ==> p in own' && own'[p] == own[p]) &&
    (forall p :: p in own' && own'[p] != Held(t) && own'[p] != HeldRef(t) ==> p in own && own'[p] == own[p])
  }

  ghost predicate SlotsApart(s: State, t: Tid, l: Local) {
    HasSlotNo(l) ==> forall u :: u != t && HasSlotNo(At(s, u)) ==> At(s, u).w != l.w || At(s, u).slot != l.slot
  }

  ghost predicate MyPages(own: map<nat, Owner>, t: Tid, l: Local) {
    (forall p :: Owns(own, p, Held(t)) ==> HasPage(l) && l.page == p) &&
    (forall p :: Owns(own, p, HeldRef(t)) ==> HasRef(l) && l.va == p)
  }

  lemma MyPagesNow(s: State, t: Tid)
    requires NoLeak(s)
    ensures MyPages(s.own, t, At(s, t))
  {}

  /** A step of t that touches nothing but what t has in hand. */
  ghost predicate OnlyMine(s: State, s': State, t: Tid) {
    s'.heap == s.heap && s'.big == s.big && OwnSameBut(s.own, s'.own, t) &&
    (forall u :: u != t ==> At(s', u) == At(s, u)) &&
    LocalOk(s.heap, s'.own, t, At(s', t)) && SlotsApart(s, t, At(s', t)) && MyPages(s'.own, t, At(s', t))
  }

  lemma LocalStep(s: State, s': State, t: Tid)
    requires Inv(s) && OnlyMine(s, s', t)
    ensures Inv(s')
  {
    LocalStepLocals(s, s', t);
    LocalStepLedger(s, s', t);
  }

  lemma LocalStepLocals(s: State, s': State, t: Tid)
    requires Locals(s) && OnlyMine(s, s', t)
    ensures Locals(s')
  {
    forall u ensures LocalOk(s'.heap, s'.own, u, At(s', u)) { assert LocalOk(s.heap, s.own, u, At(s, u)); }
  }

  lemma LocalStepLedger(s: State, s': State, t: Tid)
    requires OwnRecs(s) && OwnRoots(s) && OwnBig(s) && NoLeak(s) && OnlyMine(s, s', t)
    ensures OwnRecs(s') && OwnRoots(s') && OwnBig(s') && NoLeak(s')
  {
    forall p | p in s'.own ensures Aligned(p) && Accounted(s', p, s'.own[p]) {
      if s'.own[p] == Held(t) || s'.own[p] == HeldRef(t) {
        assert Owns(s'.own, p, s'.own[p]);
      } else {
        assert Accounted(s, p, s.own[p]);
      }
    }
  }

  lemma KeepsPageArrives(s: State, t: Tid, page: nat)
    requires Inv(s) && At(s, t).NeedPage? && FreshPages(s.own, page, 1)
    ensures Inv(TakePage(s, t, page))
  {
    assert LocalOk(s.heap, s.own, t, At(s, t));
    MyPagesNow(s, t);
    if page != 0 { assert PageIn(page, 1, page); }
    LocalStep(s, TakePage(s, t, page), t);
  }

  lemma KeepsRefPageArrives(s: State, t: Tid, va: nat)
    requires Inv(s) && At(s, t).NeedRefPage? && FreshPages(s.own, va, 1)
    ensures Inv(TakeRefPage(s, t, va))
  {
    assert LocalOk(s.heap, s.own, t, At(s, t));
    MyPagesNow(s, t);
    if va != 0 { assert PageIn(va, 1, va); }
    LocalStep(s, TakeRefPage(s, t, va), t);
  }

  lemma KeepsDiscardDone(s: State, t: Tid)
    requires Inv(s) && At(s, t).Discard?
    ensures Inv(Discarded(s, t))
  {
    assert LocalOk(s.heap, s.own, t, At(s, t));
    MyPagesNow(s, t);
    LocalStep(s, Discarded(s, t), t);
  }

  lemma KeepsGiveBack(s: State, t: Tid)
    requires Inv(s) && At(s, t).Return?
    ensures Inv(GivenBack(s, t))
  {
    MyPagesNow(s, t);
    LocalStep(s, GivenBack(s, t), t);
  }

  lemma TookBlockSettled(h: Heap, h': Heap, pr: Ref, bt: nat, p: nat)
    requires Settled(h) && TookBlock(h, h', pr, bt, p)
    ensures Settled(h') && SamePlaces(h, h')
  {
    PopKeeps(h, pr);
    PopPatches(h, pr);
  }

  lemma KeepsRequest(s: State, t: Tid, sz: nat, bt: nat, s': State, p: nat)
    requires Inv(s) && At(s, t) == Idle && Fits(sz, bt) && StepRequest(s, t, sz, bt, s', p)
    ensures Inv(s')
  {
    if p == 0 {
      MyPagesNow(s, t);
      LocalStep(s, s', t);
    } else {
      var pr :| TookBlock(s.heap, s'.heap, pr, bt, p);
      TookBlockSettled(s.heap, s'.heap, pr, bt, p);
      PlacesKept(s, s');
    }
  }

  // ------------------------------------------------------- reserving a slot

  /** No record lives in a slot that is not marked. */
  lemma UnmarkedSlot(h: Heap, w: nat, slot: nat)
    requires SlotsOk(h) && w < |h.roots| && slot < REFS_PER_PAGE && !h.roots[w].inuse[slot]
    ensures forall r :: r in h.recs ==> !RefAt(h.roots[w], slot, r)
  {
    forall r | r in h.recs ensures !RefAt(h.roots[w], slot, r) {
      if RefAt(h.roots[w], slot, r) {
        RefSlot(h.roots[w], slot, r);
        var k :| 0 <= k < |h.roots| && Marked(h.roots[k], r);
        SlotUnique(h.roots, k, w, r);
      }
    }
  }

  lemma MarkSlots(h: Heap, h': Heap, w: nat, slot: nat)
    requires SlotsOk(h) && FirstFree(h.roots, w, slot)
    requires h' == h.(roots := h.roots[w := SetBit(h.roots[w], slot, true)])
    ensures SlotsOk(h') && SlotHeld(h', w, slot)
  {
    UnmarkedSlot(h, w, slot);
    MarkKeeps(h.roots, w, slot);
    forall r | r in h'.recs ensures Reserved(h'.roots, r) { MarkReserved(h.roots, w, slot, r); }
  }

  /** Slots held by other threads are still held after the marking. */
  lemma MarkOthers(h: Heap, h': Heap, w: nat, slot: nat, w0: nat, slot0: nat)
    requires RootsOk(h.roots) && FirstFree(h.roots, w, slot) && SlotHeld(h, w0, slot0)
    requires h' == h.(roots := h.roots[w := SetBit(h.roots[w], slot, true)])
    ensures SlotHeld(h', w0, slot0) && (w != w0 || slot != slot0)
  {
    MarkKeeps(h.roots, w, slot);
  }

  lemma MarkInv(s: State, w: nat, slot: nat)
    requires Inv(s) && FirstFree(s.heap.roots, w, slot)
    ensures Inv(MarkSlot(s, w, slot)) && SlotHeld(MarkSlot(s, w, slot).heap, w, slot)
    ensures forall u :: HasSlotNo(At(s, u)) ==> At(s, u).w != w || At(s, u).slot != slot
  {
    var s' := MarkSlot(s, w, slot);
    MarkSlots(s.heap, s'.heap, w, slot);
    assert Settled(s'.heap) by { MarkSettled(s.heap, s'.heap); }
    MarkLocals(s, w, slot);
    MarkLedger(s, w, slot);
  }

  lemma MarkLedger(s: State, w: nat, slot: nat)
    requires OwnRecs(s) && OwnRoots(s) && OwnBig(s) && NoLeak(s) && FirstFree(s.heap.roots, w, slot)
    ensures var s' := MarkSlot(s, w, slot); OwnRecs(s') && OwnRoots(s') && OwnBig(s') && NoLeak(s')
  {
    var s' := MarkSlot(s, w, slot);
    forall p | p in s'.own ensures Aligned(p) && Accounted(s', p, s'.own[p]) { assert Accounted(s, p, s.own[p]); }
  }

  lemma MarkSettled(h: Heap, h': Heap)
    requires Settled(h) && h' == h.(roots := h'.roots) && SlotsOk(h')
    ensures Settled(h')
  {
    forall k | 0 <= k < NSIZES ensures SameOk(h', k) { assert SameOk(h, k); }
  }

  lemma MarkLocals(s: State, w: nat, slot: nat)
    requires Locals(s) && RootsOk(s.heap.roots) && FirstFree(s.heap.roots, w, slot)
    ensures Locals(MarkSlot(s, w, slot))
    ensures forall u :: HasSlotNo(At(s, u)) ==> At(s, u).w != w || At(s, u).slot != slot
  {
    var s' := MarkSlot(s, w, slot);
    forall u ensures LocalOk(s'.heap, s'.own, u, At(s', u)) {
      assert LocalOk(s.heap, s.own, u, At(s, u));
      if HasSlotNo(At(s, u)) { MarkOthers(s.heap, s'.heap, w, slot, At(s, u).w, At(s, u).slot); }
    }
    forall u | HasSlotNo(At(s, u)) ensures At(s, u).w != w || At(s, u).slot != slot {
      assert LocalOk(s.heap, s.own, u, At(s, u));
      MarkOthers(s.heap, s'.heap, w, slot, At(s, u).w, At(s, u).slot);
    }
    assert forall u :: At(s', u) == At(s, u);
  }

  // --------------------------------------------- adding the page of a slot

  /** A held slot of a root with a page gives a fresh, reserved pageref. */
  lemma HeldSlotIsReserved(h: Heap, w: nat, slot: nat)
    requires RootsOk(h.roots) && SlotHeld(h, w, slot) && h.roots[w].page != 0
    ensures var pr := h.roots[w].page + slot * REF_SIZE; pr != 0 && pr !in h.recs && Reserved(h.roots, pr)
  {
    var pr := h.roots[w].page + slot * REF_SIZE;
    assert RefAt(h.roots[w], slot, pr);
    RefSlot(h.roots[w], slot, pr);
    assert Marked(h.roots[w], pr);
    forall i, j | 0 <= i < j < |h.roots| && Marked(h.roots[j], pr) && h.roots[i].page == 0
      ensures h.roots[i].numinuse == REFS_PER_PAGE
    {
      SlotUnique(h.roots, j, w, pr);
    }
  }

  /** h' has one more record than h, for the given page. */
  ghost predicate OneMore(h: Heap, h': Heap, pr: Ref, page: nat, bt: nat) {
    pr !in h.recs && h'.roots == h.roots && h'.recs.Keys == h.recs.Keys + {pr} &&
    h'.recs[pr].page == page && h'.recs[pr].bt == bt && forall r :: r in h.recs ==> h'.recs[r] == h.recs[r]
  }

  lemma AddedPageShape(h: Heap, h': Heap, pr: Ref, page: nat, bt: nat, p: nat)
    requires AddedPage(h, h', pr, page, bt, p) && pr !in h.recs
    ensures OneMore(h, h', pr, page, bt) && h'.recs[pr].nfree == PerPage(bt) - 1
  {}

  lemma AddedPageInv(h: Heap, h': Heap, pr: Ref, page: nat, bt: nat, p: nat)
    requires HeapModel.Inv(h) && AddedPage(h, h', pr, page, bt, p)
    requires pr != 0 && pr !in h.recs && Reserved(h.roots, pr) && NewPage(h, page)
    ensures HeapModel.Inv(h')
  {
    var d := Descending(page, Size(bt), PerPage(bt));
    InsertKeeps(h, pr, page, bt, h'.mem, d);
    PopKeeps(Insert(h, pr, page, bt, h'.mem, d), pr);
  }

  lemma AddedPageSettled(h: Heap, h': Heap, pr: Ref, page: nat, bt: nat, p: nat)
    requires Settled(h) && AddedPage(h, h', pr, page, bt, p)
    requires pr != 0 && pr !in h.recs && Reserved(h.roots, pr) && NewPage(h, page)
    ensures Settled(h') && OneMore(h, h', pr, page, bt)
  {
    AddedPageInv(h, h', pr, page, bt, p);
    AddedPageShape(h, h', pr, page, bt, p);
  }

  /** Another thread's held slot is not the one a record was added to. */
  lemma OtherSlotKept(h: Heap, h': Heap, w: nat, slot: nat, w0: nat, slot0: nat)
    requires RootsOk(h.roots) && SlotHeld(h, w, slot) && SlotHeld(h, w0, slot0) && h.roots[w].page != 0
    requires w != w0 || slot != slot0
    requires h'.roots == h.roots && h'.recs.Keys == h.recs.Keys + {h.roots[w].page + slot * REF_SIZE}
    ensures SlotHeld(h', w0, slot0)
  {}

  /** What Finish needs of thread t: a page in hand, and the slot to itself. */
  ghost predicate ReadyToFinish(s: State, t: Tid, w: nat, slot: nat, page: nat) {
    Aligned(page) && Owns(s.own, page, Held(t)) && HasPage(At(s, t)) && At(s, t).page == page && !HasRef(At(s, t)) &&
    SlotHeld(s.heap, w, slot) && s.heap.roots[w].page != 0 &&
    forall u :: u != t && HasSlotNo(At(s, u)) ==> At(s, u).w != w || At(s, u).slot != slot
  }

  ghost predicate Finished(s: State, t: Tid, s': State, w: nat, slot: nat, page: nat, bt: nat) {
    w < |s.heap.roots| &&
    var pr := s.heap.roots[w].page + slot * REF_SIZE;
    s' == Goto(Claim(s, page, Rec(pr)), t, Idle).(heap := s'.heap) && OneMore(s.heap, s'.heap, pr, page, bt)
  }

  lemma FinishFacts(s: State, t: Tid, s': State, p: nat, w: nat, slot: nat, page: nat, bt: nat)
    requires Settled(s.heap) && OwnRecs(s) && ReadyToFinish(s, t, w, slot, page) && Finish(s, t, s', p, w, slot, page, bt)
    ensures Settled(s'.heap) && Finished(s, t, s', w, slot, page, bt)
  {
    HeldPageIsNew(s, t, page);
    FinishHeap(s.heap, s'.heap, p, w, slot, page, bt);
  }

  lemma HeldPageIsNew(s: State, t: Tid, page: nat)
    requires OwnRecs(s) && Aligned(page) && Owns(s.own, page, Held(t))
    ensures NewPage(s.heap, page)
  {}

  lemma FinishHeap(h: Heap, h': Heap, p: nat, w: nat, slot: nat, page: nat, bt: nat)
    requires Settled(h) && SlotHeld(h, w, slot) && h.roots[w].page != 0 && NewPage(h, page)
    requires AddedPage(h, h', h.roots[w].page + slot * REF_SIZE, page, bt, p)
    ensures Settled(h') && OneMore(h, h', h.roots[w].page + slot * REF_SIZE, page, bt)
  {
    HeldSlotIsReserved(h, w, slot);
    AddedPageSettled(h, h', h.roots[w].page + slot * REF_SIZE, page, bt, p);
  }

  lemma FinishKeeps(s: State, t: Tid, s': State, p: nat, w: nat, slot: nat, page: nat, bt: nat)
    requires Inv(s) && ReadyToFinish(s, t, w, slot, page) && Finish(s, t, s', p, w, slot, page, bt)
    ensures Inv(s')
  {
    FinishFacts(s, t, s', p, w, slot, page, bt);
    FinishLocals(s, t, s', w, slot, page, bt);
    FinishOwn(s, t, s', w, slot, page, bt);
    FinishLedger(s, t, s', w, slot, page, bt);
  }

  lemma FinishLocals(s: State, t: Tid, s': State, w: nat, slot: nat, page: nat, bt: nat)
    requires RootsOk(s.heap.roots) && Locals(s) && ReadyToFinish(s, t, w, slot, page) && Finished(s, t, s', w, slot, page, bt)
    ensures Locals(s')
  {
    assert forall u :: At(s', u) == if u == t then Idle else At(s, u);
    forall u ensures LocalOk(s'.heap, s'.own, u, At(s', u)) {
      assert LocalOk(s.heap, s.own, u, At(s, u));
      if u != t && HasSlotNo(At(s, u)) { OtherSlotKept(s.heap, s'.heap, w, slot, At(s, u).w, At(s, u).slot); }
    }
  }

  lemma FinishOwn(s: State, t: Tid, s': State, w: nat, slot: nat, page: nat, bt: nat)
    requires OwnRecs(s) && OwnRoots(s) && OwnBig(s)
    requires ReadyToFinish(s, t, w, slot, page) && Finished(s, t, s', w, slot, page, bt)
    ensures OwnRecs(s') && OwnRoots(s') && OwnBig(s')
  {}

  lemma FinishLedger(s: State, t: Tid, s': State, w: nat, slot: nat, page: nat, bt: nat)
    requires NoLeak(s)
    requires ReadyToFinish(s, t, w, slot, page) && Finished(s, t, s', w, slot, page, bt)
    ensures NoLeak(s')
  {}

  lemma KeepsResume(s: State, t: Tid, s': State, p: nat)
    requires Inv(s) && At(s, t).Resume?
    requires var l := At(s, t); Finish(s, t, s', p, l.w, l.slot, l.page, l.bt)
    ensures Inv(s')
  {
    var l := At(s, t);
    assert LocalOk(s.heap, s.own, t, l);
    FinishKeeps(s, t, s', p, l.w, l.slot, l.page, l.bt);
  }

  lemma KeepsReserve(s: State, t: Tid, s': State, p: nat)
    requires Inv(s) && At(s, t).HavePage? && StepReserve(s, t, s', p)
    ensures Inv(s')
  {
    var l := At(s, t);
    assert LocalOk(s.heap, s.own, t, l);
    if s' == Goto(s, t, Return(l.page)) {
      MyPagesNow(s, t);
      LocalStep(s, s', t);
    } else {
      var w, slot :| FirstFree(s.heap.roots, w, slot) && StepMark(s, t, l, w, slot, s', p);
      MarkInv(s, w, slot);
      KeepsMark(s, MarkSlot(s, w, slot), t, l, w, slot, s', p);
    }
  }

  lemma KeepsMark(s: State, s1: State, t: Tid, l: Local, w: nat, slot: nat, s': State, p: nat)
    requires At(s, t) == l && l.HavePage? && FirstFree(s.heap.roots, w, slot) && StepMark(s, t, l, w, slot, s', p)
    requires s1 == MarkSlot(s, w, slot) && Inv(s1) && SlotHeld(s1.heap, w, slot)
    requires forall u :: HasSlotNo(At(s, u)) ==> At(s, u).w != w || At(s, u).slot != slot
    ensures Inv(s')
  {
    assert forall u :: At(s1, u) == At(s, u);
    assert LocalOk(s1.heap, s1.own, t, l);
    if s.heap.roots[w].page == 0 {
      MyPagesNow(s1, t);
      LocalStep(s1, s', t);
    } else {
      FinishKeeps(s1, t, s', p, w, slot, l.page, l.bt);
    }
  }

  // ----------------------------------------- a new page of pagerefs arrives

  lemma InstallSlots(h: Heap, h': Heap, w: nat, va: nat)
    requires SlotsOk(h) && w < |h.roots| && h.roots[w].page == 0
    requires Aligned(va) && forall k :: 0 <= k < |h.roots| ==> h.roots[k].page != va
    requires h' == h.(roots := h.roots[w := h.roots[w].(page := va)])
    ensures SlotsOk(h')
    ensures forall r :: r in h.recs ==> !(va <= r < va + PAGE_SIZE)
  {
    SetPageKeeps(h.roots, w, va);
    forall r | r in h.recs ensures !(va <= r < va + PAGE_SIZE) {
      var k :| 0 <= k < |h.roots| && Marked(h.roots[k], r);
      PagesApart(h.roots[k].page, va, r);
    }
  }

  lemma InstallHeld(h: Heap, h': Heap, w: nat, va: nat, w0: nat, slot0: nat)
    requires SlotHeld(h, w0, slot0) && w < |h.roots| && h.roots[w].page == 0 && va != 0
    requires h' == h.(roots := h.roots[w := h.roots[w].(page := va)])
    requires forall r :: r in h.recs ==> !(va <= r < va + PAGE_SIZE)
    ensures SlotHeld(h', w0, slot0)
  {}

  lemma InstallInv(s: State, t: Tid)
    requires Inv(s) && At(s, t).HaveRefPage? && At(s, t).va != 0
    requires At(s, t).w < |s.heap.roots| && s.heap.roots[At(s, t).w].page == 0
    ensures Inv(Installed(s, t))
  {
    var l, s' := At(s, t), Installed(s, t);
    assert LocalOk(s.heap, s.own, t, l);
    InstallSlots(s.heap, s'.heap, l.w, l.va);
    assert Settled(s'.heap) by { MarkSettled(s.heap, s'.heap); }
    InstallLocals(s, t);
    InstallLedger(s, t);
  }

  lemma InstallLocals(s: State, t: Tid)
    requires Locals(s) && At(s, t).HaveRefPage? && At(s, t).va != 0
    requires At(s, t).w < |s.heap.roots| && s.heap.roots[At(s, t).w].page == 0
    requires forall r :: r in s.heap.recs ==> !(At(s, t).va <= r < At(s, t).va + PAGE_SIZE)
    ensures Locals(Installed(s, t))
  {
    var l, s' := At(s, t), Installed(s, t);
    assert LocalOk(s.heap, s.own, t, l);
    assert forall u :: u != t ==> At(s', u) == At(s, u);
    forall u ensures LocalOk(s'.heap, s'.own, u, At(s', u)) {
      assert LocalOk(s.heap, s.own, u, At(s, u));
      if HasSlotNo(At(s, u)) { InstallHeld(s.heap, s'.heap, l.w, l.va, At(s, u).w, At(s, u).slot); }
    }
  }

  lemma InstallLedger(s: State, t: Tid)
    requires OwnRecs(s) && OwnRoots(s) && OwnBig(s) && NoLeak(s)
    requires At(s, t).HaveRefPage? && At(s, t).va != 0 && LocalOk(s.heap, s.own, t, At(s, t))
    requires At(s, t).w < |s.heap.roots| && s.heap.roots[At(s, t).w].page == 0
    ensures var s' := Installed(s, t); OwnRecs(s') && OwnRoots(s') && OwnBig(s') && NoLeak(s')
  {
    var l, s' := At(s, t), Installed(s, t);
    MyPagesNow(s, t);
    assert forall u :: u != t ==> At(s', u) == At(s, u);
    forall q | q in s'.own ensures Aligned(q) && Accounted(s', q, s'.own[q]) {
      if q != l.va {
        assert Accounted(s, q, s.own[q]);
        assert !Owns(s.own, q, HeldRef(t));
      }
    }
  }

  lemma KeepsRelock(s: State, t: Tid, s': State, p: nat)
    requires Inv(s) && At(s, t).HaveRefPage? && StepRelock(s, t, s', p)
    ensures Inv(s')
  {
    var l := At(s, t);
    assert LocalOk(s.heap, s.own, t, l);
    if s.heap.roots[l.w].page == 0 && l.va != 0 {
      InstallInv(s, t);
      KeepsResume(Installed(s, t), t, s', p);
    } else if s.heap.roots[l.w].page != 0 && l.va == 0 {
      FinishKeeps(s, t, s', p, l.w, l.slot, l.page, l.bt);
    } else {
      MyPagesNow(s, t);
      LocalStep(s, s', t);
    }
  }

  // -------------------------------------------------------------- freeing

  lemma FreedSettled(h: Heap, h': Heap, pr: Ref, a: nat, emptied: nat)
    requires Settled(h) && FreedBlock(h, h', pr, a, emptied) && emptied == 0
    ensures Settled(h') && SamePlaces(h, h')
  {
    PushKeeps(h, pr, a, h'.mem);
    PushPatches(h, pr, a, h'.mem);
  }

  /** h' has lost record pr, and its slot. */
  ghost predicate OneLess(h: Heap, h': Heap, pr: Ref) {
    pr in h.recs && h'.recs.Keys == h.recs.Keys - {pr} && RootsOk(h.roots) && ClearedSlot(h.roots, h'.roots, pr) &&
    forall r :: r in h'.recs ==> h'.recs[r] == h.recs[r]
  }

  lemma ClearSlots(h: Heap, h': Heap, pr: Ref)
    requires SlotsOk(h) && OneLess(h, h', pr)
    ensures SlotsOk(h')
  {
    var w :| 0 <= w < |h.roots| && Marked(h.roots[w], pr) && h.roots[w].numinuse > 0 &&
             h'.roots == h.roots[w := SetBit(h.roots[w], SlotIn(h.roots[w], pr), false)];
    ClearKeeps(h.roots, w, pr);
  }

  lemma EmptiedHeap(h: Heap, h1: Heap, h': Heap, pr: Ref)
    requires HeapModel.Inv(h1) && h1.roots == h.roots && SlotsOk(h) && OneLess(h, h', pr)
    requires exists ia, ib :: UnlinkedAt(h1, h'.(roots := h.roots), pr, ia, ib)
    ensures HeapModel.Inv(h')
  {
    var h2 := h'.(roots := h.roots);
    var ia, ib :| UnlinkedAt(h1, h2, pr, ia, ib);
    UnlinkedLists(h1, h2, pr, ia, ib);
    DeleteRecs(h1, h2, pr);
    ClearSlots(h, h', pr);
    MoveRoots(h2, h');
  }

  lemma MoveRoots(h: Heap, h': Heap)
    requires RecsOk(h) && PagesDistinct(h) && ListsOk(h) && h' == h.(roots := h'.roots)
    ensures RecsOk(h') && PagesDistinct(h') && ListsOk(h')
  {
    forall k | 0 <= k < NSIZES ensures SameOk(h', k) { assert SameOk(h, k); }
  }

  lemma EmptiedShape(h: Heap, h': Heap, pr: Ref, a: nat, emptied: nat)
    requires FreedBlock(h, h', pr, a, emptied) && emptied != 0 && h.free.Keys == h.recs.Keys
    ensures OneLess(h, h', pr) && emptied == h.recs[pr].page
  {}

  lemma EmptiedSettled(h: Heap, h': Heap, pr: Ref, a: nat, emptied: nat)
    requires Settled(h) && FreedBlock(h, h', pr, a, emptied) && emptied != 0
    ensures Settled(h')
  {
    PushKeeps(h, pr, a, h'.mem);
    EmptiedShape(h, h', pr, a, emptied);
    EmptiedHeap(h, Push(h, pr, a, h'.mem), h', pr);
  }

  /** A slot that another thread holds is not the one given up. */
  lemma OtherSlotAfterClear(h: Heap, h': Heap, pr: Ref, w0: nat, slot0: nat)
    requires OneLess(h, h', pr) && SlotHeld(h, w0, slot0)
    ensures SlotHeld(h', w0, slot0)
  {}

  /** s' is s after the last block on record pr's page was freed by t. */
  ghost predicate Emptied(s: State, t: Tid, s': State, pr: Ref) {
    OneLess(s.heap, s'.heap, pr) && At(s, t) == Idle &&
    var page := s.heap.recs[pr].page;
    s' == Goto(Claim(s, page, Held(t)), t, Return(page)).(heap := s'.heap)
  }

  lemma EmptiedLocals(s: State, t: Tid, s': State, pr: Ref)
    requires Locals(s) && OwnRecs(s) && Emptied(s, t, s', pr) && Aligned(s.heap.recs[pr].page)
    ensures Locals(s')
  {
    assert forall u :: u != t ==> At(s', u) == At(s, u);
    forall u ensures LocalOk(s'.heap, s'.own, u, At(s', u)) {
      assert LocalOk(s.heap, s.own, u, At(s, u));
      if u != t && HasSlotNo(At(s, u)) { OtherSlotAfterClear(s.heap, s'.heap, pr, At(s, u).w, At(s, u).slot); }
    }
  }

  lemma EmptiedOwn(s: State, t: Tid, s': State, pr: Ref)
    requires OwnRecs(s) && OwnRoots(s) && OwnBig(s) && Emptied(s, t, s', pr)
    ensures OwnRecs(s') && OwnRoots(s') && OwnBig(s')
  {
    SameRootPages(s.heap, s'.heap, pr);
    assert Owns(s.own, s.heap.recs[pr].page, Rec(pr));
  }

  lemma EmptiedLedger(s: State, t: Tid, s': State, pr: Ref)
    requires OwnRecs(s) && NoLeak(s) && Emptied(s, t, s', pr)
    ensures NoLeak(s')
  {
    MyPagesNow(s, t);
    assert forall u :: u != t ==> At(s', u) == At(s, u);
    SameRootPages(s.heap, s'.heap, pr);
    forall q | q in s'.own ensures Aligned(q) && Accounted(s', q, s'.own[q]) {
      if q != s.heap.recs[pr].page {
        assert Accounted(s, q, s.own[q]);
        assert !Owns(s.own, q, Held(t)) && !Owns(s.own, q, HeldRef(t));
      }
    }
  }

  lemma SameRootPages(h: Heap, h': Heap, pr: Ref)
    requires OneLess(h, h', pr)
    ensures |h'.roots| == |h.roots| && forall w :: 0 <= w < |h.roots| ==> h'.roots[w].page == h.roots[w].page
  {}

  lemma KeepsFree(s: State, t: Tid, ptr: nat, pr: Ref, emptied: nat, s': State)
    requires Inv(s) && At(s, t) == Idle && StepFree(s, t, ptr, pr, emptied, s')
    ensures Inv(s')
  {
    if emptied == 0 {
      FreedSettled(s.heap, s'.heap, pr, ptr, emptied);
      PlacesKept(s, s');
    } else {
      EmptiedSettled(s.heap, s'.heap, pr, ptr, emptied);
      EmptiedShape(s.heap, s'.heap, pr, ptr, emptied);
      assert Aligned(s.heap.recs[pr].page) by { assert Owns(s.own, s.heap.recs[pr].page, Rec(pr)); }
      EmptiedLocals(s, t, s', pr);
      EmptiedOwn(s, t, s', pr);
      EmptiedLedger(s, t, s', pr);
    }
  }

  // ------------------------------------------------- whole-page allocations

  /** own' is own with the given pages added for a new whole-page allocation. */
  ghost predicate PagesClaimed(own: map<nat, Owner>, own': map<nat, Owner>, base: nat, n: nat) {
    (forall x :: x in own' <==> x in own || PageIn(base, n, x)) &&
    forall x :: x in own' ==> own'[x] == if PageIn(base, n, x) then Big(base) else own[x]
  }

  ghost predicate PagesDropped(own: map<nat, Owner>, own': map<nat, Owner>, base: nat, n: nat) {
    (forall x :: x in own' <==> x in own && !PageIn(base, n, x)) &&
    forall x :: x in own' ==> own'[x] == own[x]
  }

  lemma KeepsBigRequest(s: State, s': State, base: nat, n: nat)
    requires Inv(s) && Aligned(base) && n > 0 && base !in s.big && FreshPages(s.own, base, n)
    requires s'.heap == s.heap && s'.local == s.local && s'.big == s.big[base := n] && PagesClaimed(s.own, s'.own, base, n)
    ensures Inv(s')
  {
    assert forall u :: At(s', u) == At(s, u);
    forall u ensures LocalOk(s'.heap, s'.own, u, At(s', u)) { assert LocalOk(s.heap, s.own, u, At(s, u)); }
    BigLedger(s, s', base, n);
  }

  lemma BigLedger(s: State, s': State, base: nat, n: nat)
    requires OwnRecs(s) && OwnRoots(s) && OwnBig(s) && NoLeak(s)
    requires Aligned(base) && n > 0 && base !in s.big && FreshPages(s.own, base, n)
    requires s'.heap == s.heap && s'.local == s.local && s'.big == s.big[base := n] && PagesClaimed(s.own, s'.own, base, n)
    ensures OwnRecs(s') && OwnRoots(s') && OwnBig(s') && NoLeak(s')
  {
    forall q | q in s'.own ensures Aligned(q) && Accounted(s', q, s'.own[q]) {
      if !PageIn(base, n, q) { assert Accounted(s, q, s.own[q]); }
    }
  }

  lemma KeepsBigFree(s: State, s': State, ptr: nat)
    requires Inv(s) && ptr in s.big
    requires s'.heap == s.heap && s'.local == s.local && s'.big == s.big - {ptr} && PagesDropped(s.own, s'.own, ptr, s.big[ptr])
    ensures Inv(s')
  {
    assert forall u :: At(s', u) == At(s, u);
    assert forall x :: PageIn(ptr, s.big[ptr], x) ==> Owns(s.own, x, Big(ptr));
    forall u ensures LocalOk(s'.heap, s'.own, u, At(s', u)) { assert LocalOk(s.heap, s.own, u, At(s, u)); }
    BigFreeLedger(s, s', ptr);
  }

  lemma BigFreeLedger(s: State, s': State, ptr: nat)
    requires OwnRecs(s) && OwnRoots(s) && OwnBig(s) && NoLeak(s) && ptr in s.big
    requires s'.heap == s.heap && s'.local == s.local && s'.big == s.big - {ptr} && PagesDropped(s.own, s'.own, ptr, s.big[ptr])
    ensures OwnRecs(s') && OwnRoots(s') && OwnBig(s') && NoLeak(s')
  {}

  // ------------------------------------------------------- a client's write

  /** The page that byte x lies on. */
  function PageOfByte(x: nat): nat { x / PAGE_SIZE * PAGE_SIZE }

  /** A byte in a client's hands is no free-list link. */
  lemma OccupiedIsNotFree(s: State, x: nat, r: Ref)
    requires Inv(s) && Occupied(s, x) && r in s.heap.recs
    ensures x !in s.heap.free[r]
  {
    if InSmall(s.heap, x) {
      var q, a :| InBlock(s.heap, q, a, x);
      SmallNotFree(s.heap, q, a, r, x);
    } else {
      var b :| b in s.big && b <= x < b + s.big[b] * PAGE_SIZE;
      BigNotOnRecord(s, b, x, r);
      assert RecOk(s.heap.mem, s.heap.recs[r], s.heap.free[r]);
    }
  }

  /** Whole-page allocations and heap pages do not meet. */
  lemma BigNotOnRecord(s: State, b: nat, x: nat, r: Ref)
    requires OwnBig(s) && OwnRecs(s) && NoLeak(s) && r in s.heap.recs
    requires b in s.big && b <= x < b + s.big[b] * PAGE_SIZE
    ensures !OnPage(s.heap.recs[r].page, x)
  {
    BigPageOf(b, s.big[b], x);
    assert Owns(s.own, PageOfByte(x), Big(b)) && Owns(s.own, s.heap.recs[r].page, Rec(r));
    NotItsPage(s.heap.recs[r].page, x);
  }

  lemma NotItsPage(page: nat, x: nat)
    requires page % PAGE_SIZE == 0 && PageOfByte(x) != page
    ensures !OnPage(page, x)
  {}

  lemma SmallNotFree(h: Heap, q: Ref, a: nat, r: Ref, x: nat)
    requires RecsOk(h) && PagesDistinct(h) && InBlock(h, q, a, x) && r in h.recs
    ensures x !in h.free[r]
  {
    assert RecOk(h.mem, h.recs[r], h.free[r]) && RecOk(h.mem, h.recs[q], h.free[q]);
    BlockFits(h.recs[q].page, h.recs[q].bt, a);
    if x in h.free[r] {
      if q == r {
        if x != a { BlocksApart(h.recs[r].page, h.recs[r].bt, a, x); }
      } else {
        PagesApart(h.recs[q].page, h.recs[r].page, x);
      }
    }
  }

  lemma BigPageOf(b: nat, n: nat, x: nat)
    requires Aligned(b) && b <= x < b + n * PAGE_SIZE
    ensures PageIn(b, n, PageOfByte(x)) && PageOfByte(x) <= x
  {}

  lemma KeepsWrite(s: State, x: nat, v: nat)
    requires Inv(s) && Occupied(s, x)
    ensures Inv(s.(heap := s.heap.(mem := s.heap.mem[x := v])))
  {
    var h, h' := s.heap, s.heap.(mem := s.heap.mem[x := v]);
    forall r | r in h.recs ensures RecOk(h'.mem, h.recs[r], h.free[r]) {
      assert RecOk(h.mem, h.recs[r], h.free[r]);
      OccupiedIsNotFree(s, x, r);
      Chains.ChainFrame(h.mem, h'.mem, HeadOf(h.recs[r]), h.free[r]);
    }
    assert RecsOk(h');
    WriteFrame(h, h');
    PlacesKept(s, s.(heap := h'));
  }

  lemma WriteFrame(h: Heap, h': Heap)
    requires Settled(h) && RecsOk(h') && h' == h.(mem := h'.mem)
    ensures Settled(h') && SamePlaces(h, h')
  {
    ListsFrame(h, h');
    SlotsFrame(h, h');
  }

  /** kmalloc's page count covers the request exactly if rounding up does not
      wrap around; from W - PAGE_SIZE + 1 bytes on it is 0 pages. */
  lemma PagesForCovers(sz: nat)
    requires 0 < sz < Words.W
    ensures PagesFor(sz) * PAGE_SIZE >= sz <==> sz <= Words.W - PAGE_SIZE
    ensures sz > Words.W - PAGE_SIZE ==> PagesFor(sz) == 0
  {}

  // --------------------------------------------------------- what it means

  /** Between h and h', block a on record r's page has become live. */
  ghost predicate Gains(h: Heap, h': Heap, r: Ref, a: nat) {
    r in h'.recs && h'.recs[r].bt < NSIZES && BlockOn(h'.recs[r].page, h'.recs[r].bt, a) &&
    (forall q, b :: LiveOn(h', q, b) <==> LiveOn(h, q, b) || (q == r && b == a)) &&
    (forall q, b :: LiveOn(h, q, b) ==> h'.recs[q].bt == h.recs[q].bt) && !LiveOn(h, r, a)
  }

  lemma TookGains(h: Heap, h': Heap, pr: Ref, bt: nat, p: nat)
    requires RecsOk(h) && TookBlock(h, h', pr, bt, p)
    ensures Gains(h, h', pr, p)
  {}

  lemma PatchGains(h: Heap, h': Heap, r: Ref, a: nat)
    requires h.free.Keys == h.recs.Keys && Patched(h, h', r) && h.free[r] == [a] + h'.free[r]
    requires NoDup(h.free[r]) && BlockOnRec(h, r, a)
    ensures Gains(h, h', r, a)
  {
    assert a !in h'.free[r] by {
      assert h.free[r][0] == a;
      assert forall i :: 0 <= i < |h'.free[r]| ==> h'.free[r][i] == h.free[r][i + 1] != h.free[r][0];
    }
  }

  lemma AddedGains(h: Heap, h': Heap, pr: Ref, page: nat, bt: nat, p: nat)
    requires RecsOk(h) && AddedPage(h, h', pr, page, bt, p) && pr !in h.recs
    ensures Gains(h, h', pr, p)
  {
    var d := Descending(page, Size(bt), PerPage(bt));
    var h1 := Insert(h, pr, page, bt, h'.mem, d);
    InsertSame(h, h1, pr, page, bt, h'.mem, d);
    PopPatches(h1, pr);
    assert p in d;
    PatchGains(h1, h', pr, p);
    assert forall q, b :: LiveOn(h, q, b) ==> h1.recs[q].bt == h.recs[q].bt;
  }

  lemma InsertSame(h: Heap, h1: Heap, pr: Ref, page: nat, bt: nat, mem': map<nat, nat>, d: seq<nat>)
    requires bt < NSIZES && |h.sizebases| == |h.same| == NSIZES && h.free.Keys == h.recs.Keys && pr !in h.recs
    requires h1 == Insert(h, pr, page, bt, mem', d)
    requires RecOk(mem', PageRef(page, bt, (PerPage(bt) - 1) * Size(bt), PerPage(bt)), d)
    ensures forall q, b :: LiveOn(h1, q, b) <==> LiveOn(h, q, b)
  {
    FullIff(mem', PageRef(page, bt, (PerPage(bt) - 1) * Size(bt), PerPage(bt)), d);
    forall q, b ensures LiveOn(h1, q, b) <==> LiveOn(h, q, b) {}
  }

  /** Between h and h', block a on record r's page has stopped being live. */
  ghost predicate Loses(h: Heap, h': Heap, r: Ref, a: nat) {
    LiveOn(h, r, a) &&
    (forall q, b :: LiveOn(h', q, b) <==> LiveOn(h, q, b) && !(q == r && b == a)) &&
    (forall q, b :: LiveOn(h', q, b) ==> h'.recs[q].bt == h.recs[q].bt)
  }

  lemma PushLoses(h: Heap, h1: Heap, pr: Ref, a: nat, mem': map<nat, nat>)
    requires h.free.Keys == h.recs.Keys && BlockOnRec(h, pr, a) && a !in h.free[pr] && h1 == Push(h, pr, a, mem')
    ensures Loses(h, h1, pr, a)
  {}

  /** Freeing takes away the block's bytes and nothing else. */
  lemma FreedLoses(h: Heap, h': Heap, pr: Ref, a: nat, emptied: nat)
    requires RecsOk(h) && FreedBlock(h, h', pr, a, emptied)
    requires h.recs[pr].nfree < PerPage(h.recs[pr].bt)
    ensures Loses(h, h', pr, a)
  {
    var h1 := Push(h, pr, a, h'.mem);
    PushLoses(h, h1, pr, a, h'.mem);
    if emptied != 0 {
      PushPatches(h, pr, a, h'.mem);
      EmptiedShape(h, h', pr, a, emptied);
      DroppedSame(h1, h', pr);
    }
  }

  lemma DroppedSame(h1: Heap, h': Heap, pr: Ref)
    requires pr in h1.recs && pr in h1.free && RecOk(h1.mem, h1.recs[pr], h1.free[pr])
    requires h1.recs[pr].nfree == PerPage(h1.recs[pr].bt)
    requires h'.recs == h1.recs - {pr} && h'.free == h1.free - {pr}
    ensures forall q, b :: LiveOn(h', q, b) <==> LiveOn(h1, q, b)
  {
    FullIff(h1.mem, h1.recs[pr], h1.free[pr]);
    forall q, b ensures LiveOn(h', q, b) <==> LiveOn(h1, q, b) {}
  }

  // ------------------------------------------------- the clients' view of it

  ghost predicate SmallAt(h: Heap, p: nat, n: nat) {
    exists r :: LiveOn(h, r, p) && n == Size(h.recs[r].bt)
  }

  /** Pointer p is a client's, for n bytes. */
  ghost predicate LiveAt(s: State, p: nat, n: nat) {
    SmallAt(s.heap, p, n) || (p in s.big && n == s.big[p] * PAGE_SIZE)
  }

  predicate Apart(p: nat, n: nat, q: nat, m: nat) { p + n <= q || q + m <= p }

  lemma LiveBlocksApart(h: Heap, q: Ref, b: nat, r: Ref, a: nat)
    requires RecsOk(h) && PagesDistinct(h) && BlockOnRec(h, q, b) && BlockOnRec(h, r, a)
    ensures (q == r && a == b) || Apart(a, Size(h.recs[r].bt), b, Size(h.recs[q].bt))
  {
    assert RecOk(h.mem, h.recs[r], h.free[r]) && RecOk(h.mem, h.recs[q], h.free[q]);
    BlockFits(h.recs[q].page, h.recs[q].bt, b);
    BlockFits(h.recs[r].page, h.recs[r].bt, a);
    if q != r {
      PagesOrdered(h.recs[q].page, h.recs[r].page);
    } else if a != b {
      BlocksApart(h.recs[r].page, h.recs[r].bt, a, b);
    }
  }

  lemma PagesOrdered(p: nat, q: nat)
    requires p % PAGE_SIZE == 0 && q % PAGE_SIZE == 0 && p != q
    ensures p + PAGE_SIZE <= q || q + PAGE_SIZE <= p
  {}

  lemma SmallApart(h: Heap, p: nat, n: nat, q: nat, m: nat)
    requires RecsOk(h) && PagesDistinct(h) && SmallAt(h, p, n) && SmallAt(h, q, m)
    ensures if p == q then n == m else Apart(p, n, q, m)
  {
    var r :| LiveOn(h, r, p) && n == Size(h.recs[r].bt);
    var k :| LiveOn(h, k, q) && m == Size(h.recs[k].bt);
    LiveBlocksApart(h, k, q, r, p);
  }

  lemma SmallBigApart(s: State, p: nat, n: nat, b: nat)
    requires RecsOk(s.heap) && OwnRecs(s) && OwnBig(s) && SmallAt(s.heap, p, n) && b in s.big
    ensures p != b && Apart(p, n, b, s.big[b] * PAGE_SIZE)
  {
    var r :| LiveOn(s.heap, r, p) && n == Size(s.heap.recs[r].bt);
    var page := s.heap.recs[r].page;
    assert RecOk(s.heap.mem, s.heap.recs[r], s.heap.free[r]);
    BlockFits(page, s.heap.recs[r].bt, p);
    assert Owns(s.own, page, Rec(r));
    PageRunApart(page, b, s.big[b]);
  }

  lemma PageRunApart(page: nat, b: nat, n: nat)
    requires page % PAGE_SIZE == 0 && Aligned(b) && n > 0 && !PageIn(b, n, page)
    ensures Apart(page, PAGE_SIZE, b, n * PAGE_SIZE)
  {}

  lemma BigApart(s: State, b: nat, c: nat)
    requires OwnBig(s) && b in s.big && c in s.big && b != c
    ensures Apart(b, s.big[b] * PAGE_SIZE, c, s.big[c] * PAGE_SIZE)
  {
    assert PageIn(b, s.big[b], b) && PageIn(c, s.big[c], c);
    assert !PageIn(b, s.big[b], c) && !PageIn(c, s.big[c], b);
  }

  /** At any time, live allocations overlap nowhere, and each has one size. */
  lemma LiveAllocationsApart(s: State, p: nat, n: nat, q: nat, m: nat)
    requires Inv(s) && LiveAt(s, p, n) && LiveAt(s, q, m)
    ensures if p == q then n == m else Apart(p, n, q, m)
  {
    if SmallAt(s.heap, p, n) {
      if SmallAt(s.heap, q, m) { SmallApart(s.heap, p, n, q, m); } else { SmallBigApart(s, p, n, q); }
    } else {
      if SmallAt(s.heap, q, m) { SmallBigApart(s, q, m, p); } else if p != q { BigApart(s, p, q); }
    }
  }

  lemma GainsSmall(h: Heap, h': Heap, r: Ref, a: nat)
    requires Gains(h, h', r, a)
    ensures forall q, m :: SmallAt(h', q, m) <==> SmallAt(h, q, m) || (q == a && m == Size(h'.recs[r].bt))
  {}

  lemma LosesSmall(h: Heap, h': Heap, r: Ref, a: nat)
    requires RecsOk(h) && PagesDistinct(h) && Loses(h, h', r, a)
    ensures SmallAt(h, a, Size(h.recs[r].bt))
    ensures forall q, m :: SmallAt(h', q, m) <==> SmallAt(h, q, m) && q != a
  {
    forall q, m ensures SmallAt(h', q, m) <==> SmallAt(h, q, m) && q != a {
      if SmallAt(h, q, m) && q != a { var k :| LiveOn(h, k, q) && m == Size(h.recs[k].bt); assert LiveOn(h', k, q); }
      if SmallAt(h', q, m) {
        var k :| LiveOn(h', k, q) && m == Size(h'.recs[k].bt);
        assert LiveOn(h, k, q);
        LiveBlocksApart(h, k, q, r, a);
      }
    }
  }

  /** The request that a pointer returned by event e answers. */
  function Wanted(s: State, e: Event): nat {
    match e
    case Request(_, sz) => sz
    case BigRequest(_, sz, _) => sz
    case Reserve(t) => if HasRequest(At(s, t)) then At(s, t).sz else 0
    case Relock(t) => if HasRequest(At(s, t)) then At(s, t).sz else 0
    case ResumeLock(t) => if HasRequest(At(s, t)) then At(s, t).sz else 0
    case _ => 0
  }

  /** Exactly one allocation, of n bytes at p, has come into being. */
  ghost predicate Granted(s: State, s': State, p: nat, n: nat) {
    (forall m :: !LiveAt(s, p, m)) &&
    forall q, m :: LiveAt(s', q, m) <==> LiveAt(s, q, m) || (q == p && m == n)
  }

  /** Exactly the allocation at p is gone. */
  ghost predicate Gone(s: State, s': State, p: nat) {
    forall q, m :: LiveAt(s', q, m) <==> LiveAt(s, q, m) && q != p
  }

  lemma SmallGrant(s: State, s': State, r: Ref, p: nat)
    requires Gains(s.heap, s'.heap, r, p) && s'.big == s.big && Inv(s')
    ensures Granted(s, s', p, Size(s'.heap.recs[r].bt))
  {
    GainsSmall(s.heap, s'.heap, r, p);
    GainsFresh(s.heap, s'.heap, r, p);
    if p in s.big { SmallBigApart(s', p, Size(s'.heap.recs[r].bt), p); }
  }

  lemma GainsFresh(h: Heap, h': Heap, r: Ref, a: nat)
    requires RecsOk(h') && PagesDistinct(h') && Gains(h, h', r, a)
    ensures forall m :: !SmallAt(h, a, m)
  {
    forall k ensures !LiveOn(h, k, a) {
      if LiveOn(h, k, a) {
        assert LiveOn(h', k, a) && LiveOn(h', r, a);
        LiveBlocksApart(h', k, a, r, a);
      }
    }
  }

  lemma FinishGrants(s: State, t: Tid, s': State, p: nat, w: nat, slot: nat, page: nat, bt: nat)
    requires RecsOk(s.heap) && Finish(s, t, s', p, w, slot, page, bt) && Finished(s, t, s', w, slot, page, bt) && Inv(s')
    ensures bt < NSIZES && Granted(s, s', p, Size(bt))
  {
    var pr := s.heap.roots[w].page + slot * REF_SIZE;
    AddedGains(s.heap, s'.heap, pr, page, bt, p);
    SmallGrant(s, s', pr, p);
  }

  /** Finishing from any of the three places that do. */
  lemma FinishTheorem(s: State, t: Tid, s': State, p: nat, w: nat, slot: nat, page: nat, bt: nat)
    requires Inv(s) && ReadyToFinish(s, t, w, slot, page) && Finish(s, t, s', p, w, slot, page, bt)
    ensures Inv(s') && bt < NSIZES && Granted(s, s', p, Size(bt))
  {
    FinishKeeps(s, t, s', p, w, slot, page, bt);
    FinishFacts(s, t, s', p, w, slot, page, bt);
    FinishGrants(s, t, s', p, w, slot, page, bt);
  }

  lemma RequestGrants(s: State, t: Tid, sz: nat, bt: nat, s': State, p: nat)
    requires RecsOk(s.heap) && Fits(sz, bt) && StepRequest(s, t, sz, bt, s', p) && p != 0 && Inv(s')
    ensures sz <= Size(bt) && Granted(s, s', p, Size(bt))
  {
    var pr :| TookBlock(s.heap, s'.heap, pr, bt, p);
    TookGains(s.heap, s'.heap, pr, bt, p);
    SmallGrant(s, s', pr, p);
  }

  lemma FreeReleases(s: State, t: Tid, ptr: nat, pr: Ref, emptied: nat, s': State)
    requires Settled(s.heap) && StepFree(s, t, ptr, pr, emptied, s') && ptr !in s.big
    ensures SmallAt(s.heap, ptr, Size(s.heap.recs[pr].bt)) && Gone(s, s', ptr)
  {
    FreedLoses(s.heap, s'.heap, pr, ptr, emptied);
    LosesSmall(s.heap, s'.heap, pr, ptr);
  }

  /** A page goes back to free_kpages exactly when the block freed was the last
      live one on it. */
  lemma PageReturnedIffLast(h: Heap, h': Heap, pr: Ref, a: nat, emptied: nat)
    requires Settled(h) && FreedBlock(h, h', pr, a, emptied)
    ensures emptied == (if forall b :: LiveOn(h, pr, b) ==> b == a then h.recs[pr].page else 0)
  {
    var h1 := Push(h, pr, a, h'.mem);
    assert RecOk(h.mem, h.recs[pr], h.free[pr]);
    PushPatches(h, pr, a, h'.mem);
    FullIff(h1.mem, h1.recs[pr], h1.free[pr]);
    LastIff(h, h1, pr, a);
  }

  lemma LastIff(h: Heap, h1: Heap, pr: Ref, a: nat)
    requires pr in h.recs && pr in h.free && pr in h1.free && h.recs[pr].bt < NSIZES && h1.free[pr] == [a] + h.free[pr]
    ensures (forall b :: BlockOn(h.recs[pr].page, h.recs[pr].bt, b) ==> b in h1.free[pr])
            <==> forall b :: LiveOn(h, pr, b) ==> b == a
  {
    if forall b :: LiveOn(h, pr, b) ==> b == a {
      forall b | BlockOn(h.recs[pr].page, h.recs[pr].bt, b) ensures b in h1.free[pr] {
        if b !in h.free[pr] { assert LiveOn(h, pr, b); }
      }
    }
  }

  /** What each event comes to, for the clients. */
  ghost predicate Effect(s: State, e: Event, s': State, p: nat) {
    Inv(s') &&
    if p != 0 then exists n :: Wanted(s, e) <= n && Granted(s, s', p, n)
    else if e.Free? || e.BigFree? then (exists n :: LiveAt(s, e.ptr, n)) && Gone(s, s', e.ptr)
    else forall q, m :: LiveAt(s', q, m) <==> LiveAt(s, q, m)
  }

  lemma SameLive(s: State, s': State)
    requires s'.heap.recs == s.heap.recs && s'.heap.free == s.heap.free && s'.big == s.big
    ensures forall q, m :: LiveAt(s', q, m) <==> LiveAt(s, q, m)
  {}

  lemma RequestEffect(s: State, e: Event, s': State, p: nat)
    requires Inv(s) && e.Request? && Step(s, e, s', p)
    ensures Effect(s, e, s', p)
  {
    var bt :| Fits(e.sz, bt) && StepRequest(s, e.t, e.sz, bt, s', p);
    KeepsRequest(s, e.t, e.sz, bt, s', p);
    RequestLive(s, e.t, e.sz, bt, s', p);
  }

  lemma RequestLive(s: State, t: Tid, sz: nat, bt: nat, s': State, p: nat)
    requires RecsOk(s.heap) && Fits(sz, bt) && StepRequest(s, t, sz, bt, s', p) && Inv(s')
    ensures if p == 0 then forall q, m :: LiveAt(s', q, m) <==> LiveAt(s, q, m) else sz <= Size(bt) && Granted(s, s', p, Size(bt))
  {
    if p == 0 { SameLive(s, s'); } else { RequestGrants(s, t, sz, bt, s', p); }
  }

  /** s1 is s as far as anything live is concerned. */
  ghost predicate SameBlocks(s: State, s1: State) {
    s1.heap.recs == s.heap.recs && s1.heap.free == s.heap.free && s1.big == s.big
  }

  lemma FinishEffect(s: State, e: Event, s1: State, s': State, p: nat, w: nat, slot: nat, page: nat, bt: nat)
    requires bt < NSIZES && Wanted(s, e) <= Size(bt) && Inv(s1) && SameBlocks(s, s1)
    requires e.Reserve? || e.Relock? || e.ResumeLock?
    requires ReadyToFinish(s1, e.t, w, slot, page) && Finish(s1, e.t, s', p, w, slot, page, bt)
    ensures Effect(s, e, s', p)
  {
    FinishTheorem(s1, e.t, s', p, w, slot, page, bt);
    GrantFromSame(s, s1, s', p, Size(bt));
    assert p != 0;
  }

  lemma GrantFromSame(s: State, s1: State, s': State, p: nat, n: nat)
    requires SameBlocks(s, s1) && Granted(s1, s', p, n)
    ensures Granted(s, s', p, n)
  {
    SameLive(s1, s);
  }

  lemma QuietLocal(s: State, e: Event, s': State)
    requires Inv(s') && SameBlocks(s, s') && !e.Free? && !e.BigFree?
    ensures Effect(s, e, s', 0)
  {}

  lemma ReserveEffect(s: State, e: Event, s': State, p: nat)
    requires Inv(s) && e.Reserve? && At(s, e.t).HavePage? && StepReserve(s, e.t, s', p)
    ensures Effect(s, e, s', p)
  {
    var l := At(s, e.t);
    if s' == Goto(s, e.t, Return(l.page)) && p == 0 {
      KeepsReserve(s, e.t, s', p);
      QuietLocal(s, e, s');
    } else {
      var w, slot :| FirstFree(s.heap.roots, w, slot) && StepMark(s, e.t, l, w, slot, s', p);
      MarkInv(s, w, slot);
      MarkEffect(s, e, MarkSlot(s, w, slot), l, w, slot, s', p);
    }
  }

  lemma MarkEffect(s: State, e: Event, s1: State, l: Local, w: nat, slot: nat, s': State, p: nat)
    requires e.Reserve? && At(s, e.t) == l && l.HavePage? && FirstFree(s.heap.roots, w, slot)
    requires StepMark(s, e.t, l, w, slot, s', p)
    requires s1 == MarkSlot(s, w, slot) && Inv(s1) && SlotHeld(s1.heap, w, slot)
    requires forall u :: HasSlotNo(At(s, u)) ==> At(s, u).w != w || At(s, u).slot != slot
    ensures Effect(s, e, s', p)
  {
    assert forall u :: At(s1, u) == At(s, u);
    assert LocalOk(s1.heap, s1.own, e.t, l);
    if s.heap.roots[w].page == 0 {
      KeepsMark(s, s1, e.t, l, w, slot, s', p);
      QuietLocal(s, e, s');
    } else {
      FinishEffect(s, e, s1, s', p, w, slot, l.page, l.bt);
    }
  }

  lemma RelockEffect(s: State, e: Event, s': State, p: nat)
    requires Inv(s) && e.Relock? && At(s, e.t).HaveRefPage? && StepRelock(s, e.t, s', p)
    ensures Effect(s, e, s', p)
  {
    var l := At(s, e.t);
    assert LocalOk(s.heap, s.own, e.t, l);
    if s.heap.roots[l.w].page == 0 && l.va != 0 {
      InstallInv(s, e.t);
      InstallEffect(s, e, s', p);
    } else if s.heap.roots[l.w].page != 0 && l.va == 0 {
      FinishEffect(s, e, s, s', p, l.w, l.slot, l.page, l.bt);
    } else {
      KeepsRelock(s, e.t, s', p);
      QuietLocal(s, e, s');
    }
  }

  lemma InstallEffect(s: State, e: Event, s': State, p: nat)
    requires e.Relock? && At(s, e.t).HaveRefPage? && At(s, e.t).w < |s.heap.roots| && Inv(Installed(s, e.t))
    requires var l := At(s, e.t); Finish(Installed(s, e.t), e.t, s', p, l.w, l.slot, l.page, l.bt)
    ensures Effect(s, e, s', p)
  {
    var l, s1 := At(s, e.t), Installed(s, e.t);
    assert LocalOk(s1.heap, s1.own, e.t, At(s1, e.t));
    FinishEffect(s, e, s1, s', p, l.w, l.slot, l.page, l.bt);
  }

  lemma ResumeEffect(s: State, e: Event, s': State, p: nat)
    requires Inv(s) && e.ResumeLock? && At(s, e.t).Resume?
    requires var l := At(s, e.t); Finish(s, e.t, s', p, l.w, l.slot, l.page, l.bt)
    ensures Effect(s, e, s', p)
  {
    var l := At(s, e.t);
    assert LocalOk(s.heap, s.own, e.t, l);
    FinishEffect(s, e, s, s', p, l.w, l.slot, l.page, l.bt);
  }

  lemma FreeEffect(s: State, e: Event, s': State)
    requires Inv(s) && e.Free? && Step(s, e, s', 0)
    ensures Effect(s, e, s', 0)
  {
    var pr, emptied :| StepFree(s, e.t, e.ptr, pr, emptied, s');
    KeepsFree(s, e.t, e.ptr, pr, emptied, s');
    var r :| LiveOn(s.heap, r, e.ptr);
    assert SmallAt(s.heap, e.ptr, Size(s.heap.recs[r].bt));
    if e.ptr in s.big { SmallBigApart(s, e.ptr, Size(s.heap.recs[r].bt), e.ptr); }
    FreeReleases(s, e.t, e.ptr, pr, emptied, s');
    assert LiveAt(s, e.ptr, Size(s.heap.recs[pr].bt));
  }

  lemma BigRequestEffect(s: State, e: Event, s': State, p: nat)
    requires Inv(s) && e.BigRequest? && Step(s, e, s', p)
    ensures Effect(s, e, s', p)
  {
    if p != 0 {
      var n := PagesFor(e.sz);
      PagesForCovers(e.sz);
      assert PageIn(p, n, p);
      assert p in s.big ==> PageIn(p, s.big[p], p) && Owns(s.own, p, Big(p));
      KeepsBigRequest(s, s', p, n);
      forall m ensures !SmallAt(s.heap, p, m) { if SmallAt(s'.heap, p, m) { SmallBigApart(s', p, m, p); } }
      assert Granted(s, s', p, n * PAGE_SIZE);
    }
  }

  lemma BigFreeEffect(s: State, e: Event, s': State)
    requires Inv(s) && e.BigFree? && Step(s, e, s', 0)
    ensures Effect(s, e, s', 0)
  {
    KeepsBigFree(s, s', e.ptr);
    assert LiveAt(s, e.ptr, s.big[e.ptr] * PAGE_SIZE);
    forall m ensures !SmallAt(s.heap, e.ptr, m) { if SmallAt(s.heap, e.ptr, m) { SmallBigApart(s, e.ptr, m, e.ptr); } }
  }

  lemma QuietEffect(s: State, e: Event, s': State, p: nat)
    requires Inv(s) && Step(s, e, s', p)
    requires e.PageArrives? || e.RefPageArrives? || e.DiscardDone? || e.GiveBack? || e.Write?
    ensures Effect(s, e, s', p)
  {
    match e {
      case PageArrives(t, page) => KeepsPageArrives(s, t, page);
      case RefPageArrives(t, va) => KeepsRefPageArrives(s, t, va);
      case DiscardDone(t) => KeepsDiscardDone(s, t);
      case GiveBack(t) => KeepsGiveBack(s, t);
      case Write(x, v) => KeepsWrite(s, x, v);
    }
    SameLive(s, s');
  }

  /** Every step, in every state that satisfies the invariant, keeps it; a
      pointer returned is a new allocation of at least the bytes asked for;
      freeing removes exactly what was allocated there; nothing else changes
      what is live. */
  lemma StepEffect(s: State, e: Event, s': State, p: nat)
    requires Inv(s) && Step(s, e, s', p)
    ensures Effect(s, e, s', p)
  {
    match e {
      case Request(_, _) => RequestEffect(s, e, s', p);
      case Reserve(_) => ReserveEffect(s, e, s', p);
      case Relock(_) => RelockEffect(s, e, s', p);
      case ResumeLock(_) => ResumeEffect(s, e, s', p);
      case Free(_, _) => FreeEffect(s, e, s');
      case BigRequest(_, _, _) => BigRequestEffect(s, e, s', p);
      case BigFree(_, _) => BigFreeEffect(s, e, s');
      case _ => QuietEffect(s, e, s', p);
    }
  }

  // ------------------------------------------------- the flow of a call

  /** How far a call of t gets in one step that returns p: it gives up only if
      alloc_kpages gave nothing, if all pageref slots are taken, or if there is no
      page for its pageref; otherwise it goes on, in the end with a pointer. */
  ghost predicate CallEdge(s: State, s': State, t: Tid, p: nat) {
    var l, l' := At(s, t), At(s', t);
    match l
    case Idle => l'.NeedPage? || l'.Return? || l' == Idle
    case NeedPage(sz, bt) => p == 0 && (l' == Idle || (l'.HavePage? && l'.sz == sz && l'.bt == bt && l'.page != 0))
    case HavePage(sz, bt, page) =>
      (l' == Idle && p != 0) ||
      (p == 0 && l' == Return(page) && forall i :: 0 <= i < |s.heap.roots| ==> s.heap.roots[i].numinuse == REFS_PER_PAGE) ||
      (p == 0 && l'.NeedRefPage? && l'.sz == sz && l'.bt == bt && l'.page == page)
    case NeedRefPage(sz, bt, page, w, slot) =>
      p == 0 && l'.HaveRefPage? && l' == HaveRefPage(sz, bt, page, w, slot, l'.va)
    case HaveRefPage(sz, bt, page, w, slot, va) =>
      w < |s.heap.roots| &&
      if s.heap.roots[w].page == 0 && va == 0 then p == 0 && l' == Return(page)
      else if s.heap.roots[w].page != 0 && va != 0 then p == 0 && l' == Discard(sz, bt, page, w, slot, va)
      else p != 0 && l' == Idle
    case Discard(sz, bt, page, w, slot, va) => p == 0 && va !in s'.own && l' == Resume(sz, bt, page, w, slot)
    case Resume(_, _, _, _, _) => p != 0 && l' == Idle
    case Return(page) => p == 0 && page !in s'.own && l' == Idle
  }

  /** The thread that takes a step. */
  predicate IsBy(e: Event, t: Tid) { !e.Write? && e.t == t }

  /** Every thread's call goes along these edges, and only by its own steps. A
      request is refused a page only when alloc_kpages has none. */
  lemma CallFlow(s: State, e: Event, s': State, p: nat, t: Tid)
    requires Inv(s) && Step(s, e, s', p)
    ensures if IsBy(e, t) then CallEdge(s, s', t, p) else At(s', t) == At(s, t)
    ensures e.PageArrives? && e.t == t ==> (At(s', t) == Idle <==> e.page == 0)
    ensures e.Request? && e.t == t ==> if p != 0 then At(s', t) == Idle else At(s', t).NeedPage? && At(s', t).sz == e.sz
  {
    match e {
      case Reserve(u) => ReserveFlow(s, u, s', p, t);
      case Relock(u) => RelockFlow(s, u, s', p, t);
      case Free(_, _) => FreeFlow(s, e, s', p, t);
      case ResumeLock(_) => PageFlow(s, e, s', p, t);
      case PageArrives(_, _) => PageFlow(s, e, s', p, t);
      case RefPageArrives(_, _) => PageFlow(s, e, s', p, t);
      case DiscardDone(_) => PageFlow(s, e, s', p, t);
      case GiveBack(_) => PageFlow(s, e, s', p, t);
      case _ => OtherFlow(s, e, s', p, t);
    }
  }

  lemma PageFlow(s: State, e: Event, s': State, p: nat, t: Tid)
    requires Step(s, e, s', p)
    requires e.PageArrives? || e.RefPageArrives? || e.DiscardDone? || e.GiveBack? || e.ResumeLock?
    ensures if IsBy(e, t) then CallEdge(s, s', t, p) else At(s', t) == At(s, t)
    ensures e.PageArrives? && e.t == t ==> (At(s', t) == Idle <==> e.page == 0)
  {}

  lemma FreeFlow(s: State, e: Event, s': State, p: nat, t: Tid)
    requires Step(s, e, s', p) && e.Free?
    ensures if IsBy(e, t) then CallEdge(s, s', t, p) else At(s', t) == At(s, t)
  {
    var pr, emptied :| StepFree(s, e.t, e.ptr, pr, emptied, s');
  }

  lemma OtherFlow(s: State, e: Event, s': State, p: nat, t: Tid)
    requires Step(s, e, s', p) && (e.Request? || e.BigRequest? || e.BigFree? || e.Write?)
    ensures if IsBy(e, t) then CallEdge(s, s', t, p) else At(s', t) == At(s, t)
    ensures e.Request? && e.t == t ==> if p != 0 then At(s', t) == Idle else At(s', t).NeedPage? && At(s', t).sz == e.sz
  {}

  lemma ReserveFlow(s: State, u: Tid, s': State, p: nat, t: Tid)
    requires At(s, u).HavePage? && StepReserve(s, u, s', p)
    ensures if t == u then CallEdge(s, s', t, p) else At(s', t) == At(s, t)
  {}

  lemma RelockFlow(s: State, u: Tid, s': State, p: nat, t: Tid)
    requires At(s, u).HaveRefPage? && StepRelock(s, u, s', p)
    ensures if t == u then CallEdge(s, s', t, p) else At(s', t) == At(s, t)
  {}

  // ----------------------------------------------------------- whole runs

  ghost predicate Init(s: State) {
    s.big == map[] && s.own == map[] && (forall t :: At(s, t) == Idle) && s.heap.recs == map[] && Settled(s.heap) &&
    forall w :: 0 <= w < |s.heap.roots| ==> s.heap.roots[w].page == 0
  }

  datatype Call = Call(e: Event, p: nat)

  /** states is a run of the given events from boot. */
  ghost predicate Run(states: seq<State>, calls: seq<Call>) {
    |states| == |calls| + 1 && Init(states[0]) &&
    forall i :: 0 <= i < |calls| ==> Step(states[i], calls[i].e, states[i + 1], calls[i].p)
  }

  lemma InitInv(s: State)
    requires Init(s)
    ensures Inv(s)
  {}

  lemma {:induction false} RunKeepsInv(states: seq<State>, calls: seq<Call>)
    requires Run(states, calls)
    ensures Inv(states[|calls|])
    decreases |calls|
  {
    var n := |calls|;
    if n == 0 {
      InitInv(states[0]);
    } else {
      RunKeepsInv(states[..n], calls[..n - 1]);
      StepEffect(states[n - 1], calls[n - 1].e, states[n], calls[n - 1].p);
    }
  }

  /** The allocator's theorem, over every interleaving from boot: no page is lost
      or has two uses, and whatever is live at the end is pairwise disjoint. */
  lemma HeapTheorem(states: seq<State>, calls: seq<Call>)
    requires Run(states, calls)
    ensures Settled(states[|calls|].heap) && NoLeak(states[|calls|])
    ensures forall p, n, q, m :: LiveAt(states[|calls|], p, n) && LiveAt(states[|calls|], q, m) && p != q ==> Apart(p, n, q, m)
  {
    RunKeepsInv(states, calls);
    var s := states[|calls|];
    forall p, n, q, m | LiveAt(s, p, n) && LiveAt(s, q, m) && p != q ensures Apart(p, n, q, m) {
      LiveAllocationsApart(s, p, n, q, m);
    }
  }

  /** The next call in any run does what its client is promised. */
  lemma NextCallTheorem(states: seq<State>, calls: seq<Call>, e: Event, s': State, p: nat)
    requires Run(states, calls) && Step(states[|calls|], e, s', p)
    ensures Effect(states[|calls|], e, s', p)
  {
    RunKeepsInv(states, calls);
    StepEffect(states[|calls|], e, s', p);
  }

  /** kfree tells the two kinds of pointer apart: a live whole-page allocation is
      on no heap page, so subpage_kfree reports it as not its own. */
  lemma BigPointerNotOnHeapPage(s: State, ptr: nat, r: Ref)
    requires Inv(s) && ptr in s.big && r in s.heap.recs
    ensures !OnPage(s.heap.recs[r].page, ptr) && ptr % PAGE_SIZE == 0
  {
    assert s.big[ptr] * PAGE_SIZE >= PAGE_SIZE;
    BigNotOnRecord(s, ptr, ptr, r);
  }

  // ---------------------------------------- a run that ends in a failed KASSERT

  /** The first k of a root's slots are marked. */
  function Marks(k: nat): seq<bool> { seq(REFS_PER_PAGE, j => j < k) }

  /** An empty heap in which root 0 has no page and k marked slots. */
  ghost function LeakyHeap(k: nat): Heap {
    Heap(map[], map[], map[], map[], seq(NSIZES, _ => 0), 0,
         seq(NUM_PAGEREFPAGES, i => if i == 0 then Root(0, Marks(k), k) else Root(0, Marks(0), 0)),
         [], seq(NSIZES, _ => []), map[])
  }

  ghost function Leaky(k: nat): State { State(LeakyHeap(k), map[], map[], map[0 := Idle]) }

  lemma {:induction false} MarksCount(k: nat)
    requires k <= REFS_PER_PAGE
    ensures CountTrue(Marks(k)) == k
  {
    if k == 0 {
      NoneTrue(Marks(0));
    } else {
      MarksCount(k - 1);
      CountSet(Marks(k - 1), k - 1, true);
      assert Marks(k - 1)[k - 1 := true] == Marks(k);
    }
  }

  lemma LeakyStart()
    ensures Init(Leaky(0))
  {
    var h := LeakyHeap(0);
    MarksCount(0);
    assert Chains.Chain(h.nextAll, 0, []);
    assert forall j :: 0 <= j < NSIZES ==> SameOk(h, j);
  }

  /** A run goes on by one step. */
  lemma Extend(states: seq<State>, calls: seq<Call>, e: Event, s': State, p: nat)
    requires Run(states, calls) && Step(states[|calls|], e, s', p)
    ensures Run(states + [s'], calls + [Call(e, p)])
    ensures (states + [s'])[|calls + [Call(e, p)]|] == s'
  {
    var ss, cs := states + [s'], calls + [Call(e, p)];
    forall i | 0 <= i < |cs| ensures Step(ss[i], cs[i].e, ss[i + 1], cs[i].p) {
      if i < |calls| { assert ss[i] == states[i] && ss[i + 1] == states[i + 1] && cs[i] == calls[i]; }
    }
  }

  /** The states of one kmalloc(2000) that gets a page but no pageref page ... */
  ghost function Failing(k: nat, i: nat): State
    requires k < REFS_PER_PAGE && i <= 6
  {
    var own := map[4096 := Held(0)];
    match i
    case 0 => Leaky(k)
    case 1 => State(LeakyHeap(k), map[], map[], map[0 := NeedPage(2000, 7)])
    case 2 => State(LeakyHeap(k), map[], own, map[0 := HavePage(2000, 7, 4096)])
    case 3 => State(LeakyHeap(k + 1), map[], own, map[0 := NeedRefPage(2000, 7, 4096, 0, k)])
    case 4 => State(LeakyHeap(k + 1), map[], own, map[0 := HaveRefPage(2000, 7, 4096, 0, k, 0)])
    case 5 => State(LeakyHeap(k + 1), map[], own, map[0 := Return(4096)])
    case _ => Leaky(k + 1)
  }

  /** ... and the events between them. */
  function FailingEvent(i: nat): Event {
    match i
    case 0 => Request(0, 2000)
    case 1 => PageArrives(0, 4096)
    case 2 => Reserve(0)
    case 3 => RefPageArrives(0, 0)
    case 4 => Relock(0)
    case _ => GiveBack(0)
  }

  lemma FailingRequest(k: nat)
    requires k < REFS_PER_PAGE
    ensures Step(Failing(k, 0), Request(0, 2000), Failing(k, 1), 0)
  {
    assert Fits(2000, 7);
    assert StepRequest(Failing(k, 0), 0, 2000, 7, Failing(k, 1), 0);
  }

  lemma FailingPages(k: nat)
    requires k < REFS_PER_PAGE
    ensures Step(Failing(k, 1), PageArrives(0, 4096), Failing(k, 2), 0)
    ensures Step(Failing(k, 3), RefPageArrives(0, 0), Failing(k, 4), 0)
  {}

  lemma FailingEnd(k: nat)
    requires k < REFS_PER_PAGE
    ensures Step(Failing(k, 4), Relock(0), Failing(k, 5), 0)
    ensures Step(Failing(k, 5), GiveBack(0), Failing(k, 6), 0)
  {}

  lemma FailingReserve(k: nat)
    requires k < REFS_PER_PAGE
    ensures Step(Failing(k, 2), Reserve(0), Failing(k, 3), 0)
  {
    var s, s' := Failing(k, 2), Failing(k, 3);
    assert Marks(k)[k := true] == Marks(k + 1);
    assert s.heap.roots[0 := SetBit(s.heap.roots[0], k, true)] == s'.heap.roots;
    assert FirstFree(s.heap.roots, 0, k) && StepMark(s, 0, At(s, 0), 0, k, s', 0);
  }

  lemma FailingStep(k: nat, i: nat)
    requires k < REFS_PER_PAGE && i < 6
    ensures Step(Failing(k, i), FailingEvent(i), Failing(k, i + 1), 0)
  {
    match i {
      case 0 => FailingRequest(k);
      case 1 => FailingPages(k);
      case 2 => FailingReserve(k);
      case 3 => FailingPages(k);
      case 4 => FailingEnd(k);
      case 5 => FailingEnd(k);
    }
  }

  lemma {:induction false} LeakSome(states: seq<State>, calls: seq<Call>, k: nat, i: nat) returns (ss: seq<State>, cs: seq<Call>)
    requires Run(states, calls) && k < REFS_PER_PAGE && states[|calls|] == Failing(k, 0) && i <= 6
    ensures Run(ss, cs) && ss[|cs|] == Failing(k, i)
    decreases i
  {
    if i == 0 {
      ss, cs := states, calls;
    } else {
      ss, cs := LeakSome(states, calls, k, i - 1);
      FailingStep(k, i - 1);
      ss, cs := OneMoreStep(ss, cs, FailingEvent(i - 1), Failing(k, i), 0);
    }
  }

  lemma OneMoreStep(states: seq<State>, calls: seq<Call>, e: Event, s': State, p: nat) returns (ss: seq<State>, cs: seq<Call>)
    requires Run(states, calls) && Step(states[|calls|], e, s', p)
    ensures Run(ss, cs) && ss[|cs|] == s'
  {
    Extend(states, calls, e, s', p);
    ss, cs := states + [s'], calls + [Call(e, p)];
  }

  lemma {:induction false} LeakMany(k: nat) returns (ss: seq<State>, cs: seq<Call>)
    requires k <= REFS_PER_PAGE
    ensures Run(ss, cs) && ss[|cs|] == Leaky(k)
  {
    if k == 0 {
      LeakyStart();
      ss, cs := [Leaky(0)], [];
    } else {
      ss, cs := LeakMany(k - 1);
      ss, cs := LeakSome(ss, cs, k - 1, 6);
    }
  }

  // Root 0 is now used up without a page. The next kmalloc marks slot 0 of root 1,
  // and this time there is a page for its pagerefs.

  ghost function LastRoots(page: nat): seq<Root> {
    seq(NUM_PAGEREFPAGES, i => if i == 0 then Root(0, Marks(256), 256) else if i == 1 then Root(page, Marks(1), 1) else Root(0, Marks(0), 0))
  }

  /** h with one more record, at 8192, for the page at 4096, and a block taken. */
  ghost function WithPage(h: Heap): Heap
    requires |h.sizebases| == |h.same| == NSIZES
  {
    Pop(Insert(h, 8192, 4096, 7, map[4096 := 0, 6144 := 4096], [6144, 4096]), 8192)
  }

  ghost function LastHeap(): Heap { WithPage(LeakyHeap(256).(roots := LastRoots(8192))) }

  ghost function Last(i: nat): State {
    var own := map[4096 := Held(0)];
    match i
    case 0 => Leaky(256)
    case 1 => State(LeakyHeap(256), map[], map[], map[0 := NeedPage(2000, 7)])
    case 2 => State(LeakyHeap(256), map[], own, map[0 := HavePage(2000, 7, 4096)])
    case 3 => State(LeakyHeap(256).(roots := LastRoots(0)), map[], own, map[0 := NeedRefPage(2000, 7, 4096, 1, 0)])
    case 4 => State(LeakyHeap(256).(roots := LastRoots(0)), map[], own[8192 := HeldRef(0)], map[0 := HaveRefPage(2000, 7, 4096, 1, 0, 8192)])
    case _ => State(LastHeap(), map[], map[4096 := Rec(8192), 8192 := RootPage(1)], map[0 := Idle])
  }

  lemma LastFirstSteps()
    ensures Step(Last(0), Request(0, 2000), Last(1), 0)
    ensures Step(Last(1), PageArrives(0, 4096), Last(2), 0)
  {
    assert Fits(2000, 7);
    assert StepRequest(Last(0), 0, 2000, 7, Last(1), 0);
  }

  lemma LastReserve()
    ensures Step(Last(2), Reserve(0), Last(3), 0)
  {
    var s, s' := Last(2), Last(3);
    assert Marks(0)[0 := true] == Marks(1);
    assert s.heap.roots[1 := SetBit(s.heap.roots[1], 0, true)] == s'.heap.roots;
    assert FirstFree(s.heap.roots, 1, 0) && StepMark(s, 0, At(s, 0), 1, 0, s', 0);
  }

  lemma LastRefPage()
    ensures Step(Last(3), RefPageArrives(0, 8192), Last(4), 0)
  {}

  lemma LastFreeList()
    ensures Descending(4096, 2048, 2) == [6144, 4096]
    ensures RecOk(map[4096 := 0, 6144 := 4096], PageRef(4096, 7, 2048, 2), [6144, 4096])
  {}

  lemma AddedTo(h: Heap)
    requires |h.sizebases| == |h.same| == NSIZES && h.mem == map[]
    ensures AddedPage(h, WithPage(h), 8192, 4096, 7, 6144)
  {
    LastFreeList();
    assert Size(7) == 2048 && PerPage(7) == 2;
    assert WithPage(h).mem == map[4096 := 0, 6144 := 4096];
  }

  lemma FinishWithPage(s: State)
    requires |s.heap.sizebases| == |s.heap.same| == NSIZES && s.heap.mem == map[]
    requires |s.heap.roots| > 1 && s.heap.roots[1].page == 8192
    requires s.own == map[4096 := Held(0), 8192 := RootPage(1)] && s.local.Keys == {0}
    ensures Finish(s, 0, s.(heap := WithPage(s.heap), own := map[4096 := Rec(8192), 8192 := RootPage(1)], local := map[0 := Idle]),
                   6144, 1, 0, 4096, 7)
  {
    AddedTo(s.heap);
    assert s.own[4096 := Rec(8192)] == map[4096 := Rec(8192), 8192 := RootPage(1)];
    assert s.local[0 := Idle] == map[0 := Idle];
  }

  /** Stage 4 with the pageref page installed. */
  ghost function LastReady(): State {
    State(LeakyHeap(256).(roots := LastRoots(8192)), map[], map[4096 := Held(0), 8192 := RootPage(1)],
          map[0 := Resume(2000, 7, 4096, 1, 0)])
  }

  lemma LastInstalled()
    ensures Installed(Last(4), 0) == LastReady()
  {}

  lemma LastFinish()
    ensures Finish(LastReady(), 0, Last(5), 6144, 1, 0, 4096, 7)
  {
    FinishWithPage(LastReady());
  }

  lemma LastRelock()
    ensures Step(Last(4), Relock(0), Last(5), 6144)
  {
    LastInstalled();
    LastFinish();
    assert StepRelock(Last(4), 0, Last(5), 6144);
  }

  /** The property that kfree of a live pointer never fails an assertion is false:
      this run, of 256 calls of kmalloc for which alloc_kpages had no pageref page
      and one for which it had, ends with a live block whose kfree does. */
  lemma KfreeAssertionReachable() returns (states: seq<State>, calls: seq<Call>)
    ensures Run(states, calls)
    ensures LiveAt(states[|calls|], 6144, 2048) && LastBlockBehindGap(states[|calls|].heap, 8192, 6144)
  {
    states, calls := LeakMany(REFS_PER_PAGE);
    states, calls := LastHead(states, calls);
    states, calls := LastTail(states, calls);
    LastIsLive();
  }

  lemma LastHead(states: seq<State>, calls: seq<Call>) returns (ss: seq<State>, cs: seq<Call>)
    requires Run(states, calls) && states[|calls|] == Last(0)
    ensures Run(ss, cs) && ss[|cs|] == Last(2)
  {
    LastFirstSteps();
    ss, cs := OneMoreStep(states, calls, Request(0, 2000), Last(1), 0);
    ss, cs := OneMoreStep(ss, cs, PageArrives(0, 4096), Last(2), 0);
  }

  lemma LastTail(states: seq<State>, calls: seq<Call>) returns (ss: seq<State>, cs: seq<Call>)
    requires Run(states, calls) && states[|calls|] == Last(2)
    ensures Run(ss, cs) && ss[|cs|] == Last(5)
  {
    LastReserve();
    ss, cs := OneMoreStep(states, calls, Reserve(0), Last(3), 0);
    LastRefPage();
    ss, cs := OneMoreStep(ss, cs, RefPageArrives(0, 8192), Last(4), 0);
    LastRelock();
    ss, cs := OneMoreStep(ss, cs, Relock(0), Last(5), 6144);
  }

  lemma LastIsLive()
    ensures LiveAt(Last(5), 6144, 2048) && LastBlockBehindGap(LastHeap(), 8192, 6144)
  {
    var h := LastHeap();
    LastFreeList();
    assert h.free[8192] == [4096];
    assert h.recs[8192].page == 4096 && h.recs[8192].bt == 7;
    assert LiveOn(h, 8192, 6144);
    MarksCount(256);
    MarksCount(1);
    MarksCount(0);
    assert Marked(h.roots[1], 8192);
    assert h.roots[0].page == 0;
    assert RootsOk(h.roots);
  }
}
