/** kern/vm/kmalloc.c: the locked sections of kmalloc and kfree, run on the
    allocator object. Each is proved to be a step of the machine in KmallocRuns. */
module KmallocSections {
  import opened HeapModel
  import opened Kmalloc
  import opened Runs = KmallocRuns

  /** s describes the machine whose heap is the given object. */
  ghost predicate Describes(s: State, heap: KHeap)
    reads heap
  {
    s.heap == heap.Snap()
  }

  /** subpage_kmalloc from its first acquire to its first release. */
  method RequestSection(heap: KHeap, ghost s: State, t: Tid, sz: nat) returns (p: nat, ghost s': State)
    requires Runs.Inv(s) && Describes(s, heap) && At(s, t) == Idle && sz < 2048
    modifies heap
    ensures Step(s, Request(t, sz), s', p) && Describes(s', heap)
  {
    var bt := heap.Blocktype(sz);
    ghost var pr;
    p, pr := heap.TryAlloc(bt);
    s' := if p == 0 then Goto(s, t, NeedPage(sz, bt)) else s.(heap := heap.Snap());
    assert Fits(sz, bt);
    assert p != 0 ==> TookBlock(s.heap, s'.heap, pr, bt, p);
    assert StepRequest(s, t, sz, bt, s', p);
  }

  /** What every allocation that made a page ends with: the page is added under
      the pageref in slot `slot` of root w, and its first block returned. */
  method FinishSection(heap: KHeap, ghost s: State, t: Tid, w: nat, slot: nat, page: nat, bt: nat)
    returns (p: nat, ghost s': State)
    requires Settled(s.heap) && Describes(s, heap) && w < |heap.roots| && bt < NSIZES && Aligned(page)
    modifies heap
    ensures Finish(s, t, s', p, w, slot, page, bt) && Describes(s', heap)
  {
    var pr := heap.roots[w].page + slot * REF_SIZE;
    p := heap.AddPage(pr, page, bt);
    s' := Goto(Claim(s, page, Rec(pr)), t, Idle).(heap := heap.Snap());
  }

  /** From the acquire after alloc_kpages to the release in or after
      allocpageref. */
  method ReserveSection(heap: KHeap, ghost s: State, t: Tid, sz: nat, bt: nat, page: nat)
    returns (p: nat, ghost s': State)
    requires Runs.Inv(s) && Describes(s, heap) && At(s, t) == HavePage(sz, bt, page)
    modifies heap
    ensures Step(s, Reserve(t), s', p) && Describes(s', heap)
  {
    assert LocalOk(s.heap, s.own, t, At(s, t));
    var w, slot := heap.ReserveSlot();
    if w == |heap.roots| { return 0, Goto(s, t, Return(page)); }
    ghost var s1 := MarkSlot(s, w, slot);
    assert FirstFree(s.heap.roots, w, slot) && Describes(s1, heap);
    if heap.roots[w].page == 0 {
      p, s' := 0, Goto(s1, t, NeedRefPage(sz, bt, page, w, slot));
    } else {
      MarkInv(s, w, slot);
      p, s' := FinishSection(heap, s1, t, w, slot, page, bt);
    }
    assert StepMark(s, t, At(s, t), w, slot, s', p);
  }

  /** From the acquire at the end of allocpagerefpage to the next release. */
  method RelockSection(heap: KHeap, ghost s: State, t: Tid, l: Local) returns (p: nat, ghost s': State)
    requires Runs.Inv(s) && Describes(s, heap) && At(s, t) == l && l.HaveRefPage?
    modifies heap
    ensures Step(s, Relock(t), s', p) && Describes(s', heap)
  {
    assert LocalOk(s.heap, s.own, t, l);
    var o := heap.InstallRefPage(l.w, l.va);
    match o {
      case NoPage => p, s' := 0, Goto(s, t, Return(l.page));
      case MustDiscard => p, s' := 0, Goto(s, t, Discard(l.sz, l.bt, l.page, l.w, l.slot, l.va));
      case Ready =>
        ghost var s1 := if l.va == 0 then s else Installed(s, t);
        if l.va != 0 { InstallInv(s, t); }
        p, s' := FinishSection(heap, s1, t, l.w, l.slot, l.page, l.bt);
    }
  }

  /** From the acquire after an unneeded pageref page was given back. */
  method ResumeSection(heap: KHeap, ghost s: State, t: Tid, l: Local) returns (p: nat, ghost s': State)
    requires Runs.Inv(s) && Describes(s, heap) && At(s, t) == l && l.Resume?
    modifies heap
    ensures Step(s, ResumeLock(t), s', p) && Describes(s', heap)
  {
    assert LocalOk(s.heap, s.own, t, l);
    p, s' := FinishSection(heap, s, t, l.w, l.slot, l.page, l.bt);
  }

  /** subpage_kfree's section, for any live pointer: a whole-page allocation is
      recognised as not on a heap page, and a block is freed unless the assertion
      in freepageref stops the system. */
  method FreeSection(heap: KHeap, ghost s: State, t: Tid, ptr: nat) returns (o: FreeOutcome, ghost s': State)
    requires Runs.Inv(s) && Describes(s, heap) && At(s, t) == Idle && (Live(s.heap, ptr) || ptr in s.big)
    modifies heap
    ensures o == NotOurs <==> ptr in s.big
    ensures o == NotOurs ==> Describes(s, heap)
    ensures o == RootAssertion <==> exists pr :: LastBlockBehindGap(s.heap, pr, ptr)
    ensures o.Freed? ==> Step(s, Free(t, ptr), s', 0) && Describes(s', heap)
    ensures o != InvalidAddress
  {
    NotFree(s, ptr);
    ghost var pr;
    o, pr := heap.FreeBlock(ptr);
    s' := if o.Freed? then AfterFree(s, t, o.emptied, heap.Snap()) else s;
    if o.Freed? { FreedIsStep(s, t, ptr, pr, o.emptied, s'); }
  }

  /** An emptied page is now in t's hands. */
  ghost function AfterFree(s: State, t: Tid, emptied: nat, h': Heap): State {
    (if emptied == 0 then s else Goto(Claim(s, emptied, Held(t)), t, Return(emptied))).(heap := h')
  }

  lemma FreedIsStep(s: State, t: Tid, ptr: nat, pr: Ref, emptied: nat, s': State)
    requires Settled(s.heap) && At(s, t) == Idle && FreedBlock(s.heap, s'.heap, pr, ptr, emptied)
    requires !LastBlockBehindGap(s.heap, pr, ptr) && s' == AfterFree(s, t, emptied, s'.heap)
    ensures Step(s, Free(t, ptr), s', 0)
  {
    assert LiveOn(s.heap, pr, ptr);
    assert StepFree(s, t, ptr, pr, emptied, s');
  }

  /** A live block is on no free list, and where it is, no other use is. */
  lemma NotFree(s: State, ptr: nat)
    requires Runs.Inv(s) && (Live(s.heap, ptr) || ptr in s.big)
    ensures forall r :: BlockOnRec(s.heap, r, ptr) ==> ptr !in s.heap.free[r]
    ensures ptr in s.big <==> forall r :: r in s.heap.recs ==> !OnPage(s.heap.recs[r].page, ptr)
    ensures forall r :: !Misplaced(s.heap, r, ptr)
  {
    if ptr in s.big {
      forall r | r in s.heap.recs ensures !OnPage(s.heap.recs[r].page, ptr) { BigPointerNotOnHeapPage(s, ptr, r); }
    } else {
      var r :| LiveOn(s.heap, r, ptr);
      OnePage(s.heap, r, ptr);
    }
  }
}
