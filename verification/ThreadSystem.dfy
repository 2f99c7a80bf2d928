/** Threads on named lists. Every list node in the kernel is the one node inside
    a thread, so a thread can be on at most one list at a time. */
module ThreadLists {
  import opened Common

  type Tid = nat

  /** Everything that can hold an off-CPU thread: the run queue, zombie list and
      migration list of a CPU, a wait channel, the private list of a waker, and
      the thread that its parent has created but not yet made runnable. */
  datatype ListId =
    | Run(cpu: nat)
    | Zombie(cpu: nat)
    | Victims(cpu: nat)
    | Woken(cpu: nat)
    | Wait(channel: nat)
    | Newborn(parent: Tid)

  type Lists = map<ListId, seq<Tid>>

  function L(ls: Lists, id: ListId): seq<Tid> {
    if id in ls then ls[id] else []
  }

  ghost predicate On(ls: Lists, id: ListId, t: Tid) { t in L(ls, id) }

  ghost predicate Somewhere(ls: Lists, t: Tid) { exists id :: On(ls, id, t) }

  /** No thread is on two lists, or twice on one. */
  ghost predicate Unique(ls: Lists) {
    (forall id :: NoDup(L(ls, id))) &&
    (forall id, id', t :: On(ls, id, t) && On(ls, id', t) ==> id == id')
  }

  function AddTail(ls: Lists, id: ListId, t: Tid): Lists { ls[id := L(ls, id) + [t]] }
  function AddHead(ls: Lists, id: ListId, t: Tid): Lists { ls[id := [t] + L(ls, id)] }

  function RemHead(ls: Lists, id: ListId): Lists
    requires L(ls, id) != []
  {
    ls[id := L(ls, id)[1..]]
  }

  function RemTail(ls: Lists, id: ListId): Lists
    requires L(ls, id) != []
  {
    ls[id := L(ls, id)[..|L(ls, id)| - 1]]
  }

  function Head(ls: Lists, id: ListId): Tid
    requires L(ls, id) != []
  {
    L(ls, id)[0]
  }

  function Last(ls: Lists, id: ListId): Tid
    requires L(ls, id) != []
  {
    L(ls, id)[|L(ls, id)| - 1]
  }

  /** ls' is ls with t gone from list id. */
  ghost predicate Removed(ls: Lists, ls': Lists, id: ListId, t: Tid) {
    Unique(ls') && On(ls, id, t) && !Somewhere(ls', t) &&
    |L(ls', id)| == |L(ls, id)| - 1 &&
    (forall id' :: id' != id ==> L(ls', id') == L(ls, id')) &&
    (forall x :: x != t ==> (On(ls', id, x) <==> On(ls, id, x)))
  }

  /** ls' is ls with t added to list id. */
  ghost predicate Added(ls: Lists, ls': Lists, id: ListId, t: Tid) {
    Unique(ls') &&
    |L(ls', id)| == |L(ls, id)| + 1 &&
    (forall id' :: id' != id ==> L(ls', id') == L(ls, id')) &&
    (forall x :: On(ls', id, x) <==> x == t || On(ls, id, x))
  }

  lemma RemHeadRemoves(ls: Lists, id: ListId)
    requires Unique(ls) && L(ls, id) != []
    ensures Removed(ls, RemHead(ls, id), id, Head(ls, id))
  {
    var ls', t, q := RemHead(ls, id), Head(ls, id), L(ls, id);
    assert L(ls', id) == q[1..];
    assert q == [t] + q[1..];
    assert NoDup(q);
    assert t !in q[1..];
    forall id' ensures NoDup(L(ls', id')) { assert NoDup(L(ls, id')); }
    forall id', x | On(ls', id', x) ensures On(ls, id', x) {}
    assert On(ls, id, t);
  }

  lemma RemTailRemoves(ls: Lists, id: ListId)
    requires Unique(ls) && L(ls, id) != []
    ensures Removed(ls, RemTail(ls, id), id, Last(ls, id))
  {
    var ls', t, q := RemTail(ls, id), Last(ls, id), L(ls, id);
    assert L(ls', id) == q[..|q| - 1];
    assert q == q[..|q| - 1] + [t];
    assert NoDup(q);
    assert t !in q[..|q| - 1];
    forall id' ensures NoDup(L(ls', id')) { assert NoDup(L(ls, id')); }
    forall id', x | On(ls', id', x) ensures On(ls, id', x) {}
    assert On(ls, id, t);
  }

  lemma AddTailAdds(ls: Lists, id: ListId, t: Tid)
    requires Unique(ls) && !Somewhere(ls, t)
    ensures Added(ls, AddTail(ls, id, t), id, t)
  {
    var ls' := AddTail(ls, id, t);
    assert !On(ls, id, t);
    forall id' ensures NoDup(L(ls', id')) { assert NoDup(L(ls, id')); }
    forall id', x | On(ls', id', x) ensures On(ls, id', x) || (id' == id && x == t) {}
  }

  lemma AddHeadAdds(ls: Lists, id: ListId, t: Tid)
    requires Unique(ls) && !Somewhere(ls, t)
    ensures Added(ls, AddHead(ls, id, t), id, t)
  {
    var ls' := AddHead(ls, id, t);
    assert !On(ls, id, t);
    forall id' ensures NoDup(L(ls', id')) { assert NoDup(L(ls, id')); }
    forall id', x | On(ls', id', x) ensures On(ls, id', x) || (id' == id && x == t) {}
  }
}

/** kern/thread/thread.c as a step machine. A step is what one CPU does while it
    holds the spinlocks that protect what it touches; steps of different CPUs
    interleave freely. `fault` records that an assertion checked in a step failed, or
    that a NULL thread pointer was used. */
module ThreadSystem {
  import opened Common
  import Words
  import opened ThreadLists

  datatype ThreadState = S_RUN | S_READY | S_SLEEP | S_ZOMBIE

  datatype Thread = Thread(state: ThreadState, cpu: nat)

  /** Where a CPU is in thread_switch.
      - Running: executing its current thread, or an interrupt handler over it
      - Locked: run queue locked, current thread not yet queued anywhere
      - Placed: current thread queued, its t_state not yet updated
      - Picking: c_isidle set, about to take the head of the run queue
      - Asleep, Awake: in cpu_idle, and in an interrupt handler that woke it
      - Switched: new current thread chosen; it has yet to release the lock
      - Exorcising: destroying zombies */
  datatype Pc =
    | Running
    | Locked(newstate: ThreadState, channel: nat)
    | Placed(newstate: ThreadState)
    | Picking
    | Asleep
    | Awake
    | Switched
    | Exorcising

  /** Where a CPU is in thread_consider_migration. Take, SendTo and PutBack hold
      a run queue lock: the CPU's own, or that of CPU `i`. `seen` keeps the queue
      lengths that the counting loop has met so far. */
  datatype Migration =
    | NoMigration
    | Count(seen: seq<nat>, total: nat, my: nat)
    | TakeStart(toSend: nat, share: nat)
    | Take(left: nat, toSend: nat, share: nat)
    | Send(i: nat, toSend: nat, share: nat)
    | SendTo(i: nat, toSend: nat, share: nat)
    | Return
    | PutBack

  datatype Cpu = Cpu(cur: Tid, idle: bool, ipi: bool, lock: Option<nat>, pc: Pc, mig: Migration)

  datatype State = State(cpus: seq<Cpu>, threads: map<Tid, Thread>, lists: Lists, fault: bool)

  datatype Event =
    | Fork(c: nat, t: Tid)
    | MakeNewbornRunnable(c: nat)
    | SwitchLock(c: nat, newstate: ThreadState, channel: nat)
    | SwitchNothing(c: nat)
    | Place(c: nat)
    | SetState(c: nat)
    | PickNone(c: nat)
    | PickNext(c: nat)
    | Finish(c: nat)
    | Exorcise(c: nat)
    | ExorciseDone(c: nat)
    | Interrupt(c: nat)
    | TakeIpi(c: nat)
    | Unidle(c: nat)
    | WakeTake(c: nat, channel: nat)
    | WakeMake(c: nat)
    | MigStart(c: nat)
    | MigCount(c: nat)
    | MigDecide(c: nat)
    | MigLockOwn(c: nat)
    | MigTakeOne(c: nat)
    | MigTakeDone(c: nat)
    | MigNext(c: nat)
    | MigSendOne(c: nat)
    | MigSendDone(c: nat)
    | MigReturn(c: nat)
    | MigPutOne(c: nat)
    | MigPutDone(c: nat)

  // ------------------------------------------------------------- helpers

  function SetPc(s: State, c: nat, pc: Pc): State
    requires c < |s.cpus|
  {
    s.(cpus := s.cpus[c := s.cpus[c].(pc := pc)])
  }

  function SetMig(s: State, c: nat, m: Migration): State
    requires c < |s.cpus|
  {
    s.(cpus := s.cpus[c := s.cpus[c].(mig := m)])
  }

  function SetLock(s: State, d: nat, l: Option<nat>): State
    requires d < |s.cpus|
  {
    s.(cpus := s.cpus[d := s.cpus[d].(lock := l)])
  }

  /** threadlist_addtail and threadlist_addhead assert that the node is unlinked. */
  ghost function Append(s: State, id: ListId, t: Tid): State {
    s.(lists := AddTail(s.lists, id, t), fault := s.fault || Somewhere(s.lists, t))
  }

  ghost function Prepend(s: State, id: ListId, t: Tid): State {
    s.(lists := AddHead(s.lists, id, t), fault := s.fault || Somewhere(s.lists, t))
  }

  function DropHead(s: State, id: ListId): State
    requires L(s.lists, id) != []
  {
    s.(lists := RemHead(s.lists, id))
  }

  function SetThread(s: State, t: Tid, th: Thread): State { s.(threads := s.threads[t := th]) }

  function Fault(s: State): State { s.(fault := true) }

  /** ipi_send(target, IPI_UNIDLE) if the target is idle and is not the sender. */
  function PokeIfIdle(s: State, target: nat, sender: nat): State
    requires target < |s.cpus|
  {
    if s.cpus[target].idle && target != sender
    then s.(cpus := s.cpus[target := s.cpus[target].(ipi := true)])
    else s
  }

  /** thread_make_runnable(t, false) executed on CPU c, once it has the lock. */
  ghost function MakeRunnable(s: State, c: nat, t: Tid): State
    requires t in s.threads && s.threads[t].cpu < |s.cpus|
  {
    var target := s.threads[t].cpu;
    PokeIfIdle(Append(SetThread(s, t, Thread(S_READY, target)), Run(target), t), target, c)
  }

  /** The CPU is executing ordinary code or an interrupt handler and holds no
      run queue lock, so it may start something new. */
  predicate Free(s: State, c: nat) {
    c < |s.cpus| && (s.cpus[c].pc == Running || s.cpus[c].pc == Awake) &&
    s.cpus[c].mig == NoMigration
  }

  predicate LockFree(s: State, d: nat) { d < |s.cpus| && s.cpus[d].lock == None }

  function RoundUp(total: nat, n: nat): nat
    requires n > 0
  {
    (total + n - 1) / n
  }

  // --------------------------------------------------------------- steps

  predicate Enabled(s: State, e: Event) {
    e.c < |s.cpus| &&
    var c := e.c;
    var cpu := s.cpus[c];
    match e
    case Fork(_, t) => Free(s, c) && cpu.pc == Running && t !in s.threads && cpu.cur in s.threads
    case MakeNewbornRunnable(_) =>
      Free(s, c) && cpu.pc == Running && L(s.lists, Newborn(cpu.cur)) != [] &&
      Head(s.lists, Newborn(cpu.cur)) in s.threads && LockFree(s, s.threads[Head(s.lists, Newborn(cpu.cur))].cpu)
    case SwitchLock(_, ns, _) =>
      Free(s, c) && cpu.pc == Running && L(s.lists, Woken(c)) == [] && ns != S_RUN && LockFree(s, c) &&
      (ns == S_ZOMBIE ==> L(s.lists, Newborn(cpu.cur)) == [])
    case SwitchNothing(_) => cpu.pc.Locked? && cpu.pc.newstate == S_READY && L(s.lists, Run(c)) == []
    case Place(_) =>
      cpu.pc.Locked? && !(cpu.pc.newstate == S_READY && L(s.lists, Run(c)) == []) && cpu.cur in s.threads
    case SetState(_) => cpu.pc.Placed? && cpu.cur in s.threads
    case PickNone(_) => cpu.pc == Picking && L(s.lists, Run(c)) == []
    case PickNext(_) => cpu.pc == Picking && L(s.lists, Run(c)) != []
    case Finish(_) => cpu.pc == Switched && cpu.cur in s.threads
    case Exorcise(_) => cpu.pc == Exorcising && L(s.lists, Zombie(c)) != []
    case ExorciseDone(_) => cpu.pc == Exorcising && L(s.lists, Zombie(c)) == []
    case Interrupt(_) => cpu.pc == Asleep
    case TakeIpi(_) => cpu.ipi && (cpu.pc == Asleep || cpu.pc == Running || cpu.pc == Awake)
    case Unidle(_) => cpu.pc == Awake && Free(s, c) && L(s.lists, Woken(c)) == [] && LockFree(s, c)
    case WakeTake(_, w) => Free(s, c) && L(s.lists, Wait(w)) != []
    case WakeMake(_) =>
      Free(s, c) && L(s.lists, Woken(c)) != [] && Head(s.lists, Woken(c)) in s.threads &&
      LockFree(s, s.threads[Head(s.lists, Woken(c))].cpu)
    case MigStart(_) => Free(s, c) && L(s.lists, Woken(c)) == []
    case MigCount(_) => cpu.mig.Count? && |cpu.mig.seen| < |s.cpus| && LockFree(s, |cpu.mig.seen|)
    case MigDecide(_) => cpu.mig.Count? && |cpu.mig.seen| == |s.cpus|
    case MigLockOwn(_) => cpu.mig.TakeStart? && LockFree(s, c)
    case MigTakeOne(_) => cpu.mig.Take? && cpu.mig.left > 0
    case MigTakeDone(_) => cpu.mig.Take? && cpu.mig.left == 0
    case MigNext(_) =>
      cpu.mig.Send? &&
      (cpu.mig.i < |s.cpus| && cpu.mig.toSend > 0 && cpu.mig.i != c ==> LockFree(s, cpu.mig.i))
    case MigSendOne(_) => SendMore(s, c)
    case MigSendDone(_) => cpu.mig.SendTo? && cpu.mig.i < |s.cpus| && !SendMore(s, c)
    case MigReturn(_) => cpu.mig == Return && (L(s.lists, Victims(c)) != [] ==> LockFree(s, c))
    case MigPutOne(_) => cpu.mig == PutBack && L(s.lists, Victims(c)) != []
    case MigPutDone(_) => cpu.mig == PutBack && L(s.lists, Victims(c)) == []
  }

  /** The condition of the inner sending loop. */
  predicate SendMore(s: State, c: nat) {
    c < |s.cpus| && s.cpus[c].mig.SendTo? && s.cpus[c].mig.i < |s.cpus| &&
    |L(s.lists, Run(s.cpus[c].mig.i))| < s.cpus[c].mig.share && s.cpus[c].mig.toSend > 0
  }

  ghost function Do(s: State, e: Event): State
    requires Enabled(s, e)
  {
    var c := e.c;
    match e
    case Fork(_, t) => DoFork(s, c, t)
    case MakeNewbornRunnable(_) =>
      var id := Newborn(s.cpus[c].cur);
      MakeRunnable(DropHead(s, id), c, Head(s.lists, id))
    case SwitchLock(_, ns, w) => SetLock(SetPc(s, c, Locked(ns, w)), c, Some(c))
    case SwitchNothing(_) => SetLock(SetPc(s, c, Running), c, None)
    case Place(_) => DoPlace(s, c)
    case SetState(_) => DoSetState(s, c)
    case PickNone(_) => SetLock(SetPc(s, c, Asleep), c, None)
    case PickNext(_) => DoPickNext(s, c)
    case Finish(_) => DoFinish(s, c)
    case Exorcise(_) => DoExorcise(s, c)
    case ExorciseDone(_) => SetPc(s, c, Running)
    case Interrupt(_) => SetPc(s, c, Awake)
    case TakeIpi(_) =>
      s.(cpus := s.cpus[c := s.cpus[c].(ipi := false, pc := if s.cpus[c].pc == Asleep then Awake else s.cpus[c].pc)])
    case Unidle(_) => SetLock(SetPc(s, c, Picking), c, Some(c))
    case WakeTake(_, w) => DoWakeTake(s, c, w)
    case WakeMake(_) => MakeRunnable(DropHead(s, Woken(c)), c, Head(s.lists, Woken(c)))
    case MigStart(_) => SetMig(s, c, Count([], 0, 0))
    case MigCount(_) => DoMigCount(s, c)
    case MigDecide(_) => DoMigDecide(s, c)
    case MigLockOwn(_) =>
      var m := s.cpus[c].mig;
      SetLock(SetMig(s, c, Take(m.toSend, m.toSend, m.share)), c, Some(c))
    case MigTakeOne(_) => DoMigTakeOne(s, c)
    case MigTakeDone(_) =>
      var m := s.cpus[c].mig;
      SetLock(SetMig(s, c, Send(0, m.toSend, m.share)), c, None)
    case MigNext(_) => DoMigNext(s, c)
    case MigSendOne(_) => DoMigSendOne(s, c)
    case MigSendDone(_) =>
      var m := s.cpus[c].mig;
      SetLock(SetMig(s, c, Send(m.i + 1, m.toSend, m.share)), m.i, None)
    case MigReturn(_) =>
      if L(s.lists, Victims(c)) == [] then SetMig(s, c, NoMigration)
      else SetLock(SetMig(s, c, PutBack), c, Some(c))
    case MigPutOne(_) => DoMigPutOne(s, c)
    case MigPutDone(_) => SetLock(SetMig(s, c, NoMigration), c, None)
  }

  /** thread_fork up to the call of thread_make_runnable. */
  ghost function DoFork(s: State, c: nat, t: Tid): State
    requires c < |s.cpus| && s.cpus[c].cur in s.threads
  {
    Append(SetThread(s, t, Thread(S_READY, s.threads[s.cpus[c].cur].cpu)), Newborn(s.cpus[c].cur), t)
  }

  /** "Put the thread in the right place." */
  ghost function DoPlace(s: State, c: nat): State
    requires c < |s.cpus| && s.cpus[c].pc.Locked? && s.cpus[c].cur in s.threads
  {
    var t, ns := s.cpus[c].cur, s.cpus[c].pc.newstate;
    var target := s.threads[t].cpu;
    var s1 := match ns
      case S_RUN => Fault(s)
      case S_READY =>
        var s0 := if target < |s.cpus| && s.cpus[target].lock == Some(c) then s else Fault(s);
        Append(SetThread(s0, t, Thread(S_READY, target)), Run(target), t)
      case S_SLEEP => Append(s, Wait(s.cpus[c].pc.channel), t)
      case S_ZOMBIE => Append(s, Zombie(c), t);
    SetPc(s1, c, Placed(ns))
  }

  function DoSetState(s: State, c: nat): State
    requires c < |s.cpus| && s.cpus[c].pc.Placed? && s.cpus[c].cur in s.threads
  {
    var t, ns := s.cpus[c].cur, s.cpus[c].pc.newstate;
    var s1 := SetThread(s, t, s.threads[t].(state := ns));
    s1.(cpus := s1.cpus[c := s1.cpus[c].(pc := Picking, idle := true)])
  }

  function DoPickNext(s: State, c: nat): State
    requires c < |s.cpus| && L(s.lists, Run(c)) != []
  {
    var s1 := DropHead(s, Run(c));
    s1.(cpus := s1.cpus[c := s1.cpus[c].(cur := Head(s.lists, Run(c)), idle := false, pc := Switched)])
  }

  /** The tail of thread_switch, or thread_startup: the thread switched to
      releases the lock its predecessor acquired. */
  function DoFinish(s: State, c: nat): State
    requires c < |s.cpus| && s.cpus[c].cur in s.threads
  {
    var t := s.cpus[c].cur;
    var s1 := SetThread(s, t, s.threads[t].(state := S_RUN));
    var s2 := if s1.cpus[c].lock == Some(c) then s1 else Fault(s1);
    SetLock(SetPc(s2, c, Exorcising), c, None)
  }

  /** One turn of the loop in exorcise, thread_destroy included. */
  ghost function DoExorcise(s: State, c: nat): State
    requires c < |s.cpus| && L(s.lists, Zombie(c)) != []
  {
    var z := Head(s.lists, Zombie(c));
    var s1 := DropHead(s, Zombie(c));
    var ok := z != s.cpus[c].cur && z in s.threads && s.threads[z].state == S_ZOMBIE && !Somewhere(s1.lists, z);
    s1.(threads := s.threads - {z}, fault := s.fault || !ok)
  }

  /** wchan_wakeone and wchan_wakeall: the head of the channel moves to the
      waker's private list. */
  ghost function DoWakeTake(s: State, c: nat, w: nat): State
    requires L(s.lists, Wait(w)) != []
  {
    Append(DropHead(s, Wait(w)), Woken(c), Head(s.lists, Wait(w)))
  }

  ghost function DoMigPutOne(s: State, c: nat): State
    requires L(s.lists, Victims(c)) != []
  {
    Append(DropHead(s, Victims(c)), Run(c), Head(s.lists, Victims(c)))
  }

  function DoMigCount(s: State, c: nat): State
    requires c < |s.cpus| && s.cpus[c].mig.Count?
  {
    var m := s.cpus[c].mig;
    var n := |L(s.lists, Run(|m.seen|))|;
    SetMig(s, c, Count(m.seen + [n], m.total + n, if |m.seen| == c then n else m.my))
  }

  function DoMigDecide(s: State, c: nat): State
    requires c < |s.cpus| && s.cpus[c].mig.Count?
  {
    var m := s.cpus[c].mig;
    var share := RoundUp(m.total, |s.cpus|);
    SetMig(s, c, if m.my < share then NoMigration else TakeStart(m.my - share, share))
  }

  ghost function DoMigTakeOne(s: State, c: nat): State
    requires c < |s.cpus| && s.cpus[c].mig.Take? && s.cpus[c].mig.left > 0
  {
    var m := s.cpus[c].mig;
    if L(s.lists, Run(c)) == [] then Fault(s)
    else
      var t := Last(s.lists, Run(c));
      SetMig(Prepend(s.(lists := RemTail(s.lists, Run(c))), Victims(c), t), c, Take(m.left - 1, m.toSend, m.share))
  }

  function DoMigNext(s: State, c: nat): State
    requires c < |s.cpus| && s.cpus[c].mig.Send?
  {
    var m := s.cpus[c].mig;
    if m.i < |s.cpus| && m.toSend > 0 then
      if m.i == c then SetMig(s, c, Send(m.i + 1, m.toSend, m.share))
      else SetLock(SetMig(s, c, SendTo(m.i, m.toSend, m.share)), m.i, Some(c))
    else SetMig(s, c, Return)
  }

  ghost function DoMigSendOne(s: State, c: nat): State
    requires SendMore(s, c)
  {
    var m := s.cpus[c].mig;
    if L(s.lists, Victims(c)) == [] then Fault(s)
    else
      var t := Head(s.lists, Victims(c));
      var s1 := SetMig(DropHead(s, Victims(c)), c, SendTo(m.i, m.toSend - 1, m.share));
      if t == s.cpus[c].cur then Append(s1, Victims(c), t)
      else
        var s2 := if t in s1.threads then SetThread(s1, t, s1.threads[t].(cpu := m.i)) else Fault(s1);
        PokeIfIdle(Append(s2, Run(m.i), t), m.i, c)
  }

  ghost predicate Init(s: State) {
    |s.cpus| > 0 && !s.fault && s.lists == map[] &&
    (forall c :: 0 <= c < |s.cpus| ==> s.cpus[c] == Cpu(c, false, false, None, Running, NoMigration)) &&
    s.threads == map c | 0 <= c < |s.cpus| :: Thread(S_READY, c)
  }

  /** Parked: the CPU has queued its current thread somewhere and has not yet
      switched to another; it may be idling on that thread's stack. */
  predicate Parked(pc: Pc) { pc.Placed? || pc == Picking || pc == Asleep || pc == Awake }

  /** CPU c is at a point where it holds the run queue lock of CPU d. */
  predicate Holds(s: State, c: nat, d: nat)
    requires c < |s.cpus|
  {
    var pc, m := s.cpus[c].pc, s.cpus[c].mig;
    (d == c && (pc.Locked? || pc.Placed? || pc == Picking || pc == Switched || m.Take? || m == PutBack)) ||
    (m.SendTo? && d == m.i)
  }

  /** t's state is st, or its CPU is just about to make it so. */
  predicate Settled(s: State, t: Tid, st: ThreadState)
    requires t in s.threads
  {
    var c := s.threads[t].cpu;
    s.threads[t].state == st || (c < |s.cpus| && s.cpus[c].cur == t && s.cpus[c].pc == Placed(st))
  }

  /** What being on a list says about a thread. */
  predicate MemberOk(s: State, id: ListId, t: Tid) {
    t in s.threads && s.threads[t].cpu < |s.cpus| &&
    match id
    case Run(c) => s.threads[t].cpu == c && s.threads[t].state == S_READY
    case Victims(c) => s.threads[t].cpu == c && s.threads[t].state == S_READY
    case Zombie(c) => s.threads[t].cpu == c && Settled(s, t, S_ZOMBIE)
    case Wait(_) => Settled(s, t, S_SLEEP)
    case Woken(c) => c < |s.cpus| && Settled(s, t, S_SLEEP)
    case Newborn(_) => s.threads[t].state == S_READY
  }

  /** The lists that the current thread may be on while its CPU is Placed. */
  predicate PlaceOk(ns: ThreadState, id: ListId) {
    match ns
    case S_RUN => false
    case S_READY => id.Run?
    case S_SLEEP => id.Wait? || id.Woken?
    case S_ZOMBIE => id.Zombie?
  }

  /** The current thread of CPU c belongs to it, and is on a list exactly while
      the CPU is parked. */
  ghost predicate CurOk(s: State, c: nat)
    requires c < |s.cpus|
  {
    var cpu := s.cpus[c];
    cpu.cur in s.threads && s.threads[cpu.cur].cpu == c &&
    (Parked(cpu.pc) <==> Somewhere(s.lists, cpu.cur)) &&
    (cpu.pc.Placed? ==> forall id :: On(s.lists, id, cpu.cur) ==> PlaceOk(cpu.pc.newstate, id))
  }

  /** Flags agree with the program point, and a CPU asleep in cpu_idle with work
      on its run queue has an interrupt coming. */
  predicate FlagsOk(s: State, c: nat)
    requires c < |s.cpus|
  {
    var cpu := s.cpus[c];
    (cpu.pc.Locked? ==> cpu.pc.newstate != S_RUN) &&
    (cpu.idle <==> cpu.pc == Picking || cpu.pc == Asleep || cpu.pc == Awake) &&
    (cpu.pc == Asleep && L(s.lists, Run(c)) != [] ==> cpu.ipi) &&
    (cpu.mig != NoMigration || L(s.lists, Woken(c)) != [] ==> cpu.pc == Running || cpu.pc == Awake)
  }

  /** Migration never asks a list for more threads than it has. */
  predicate MigOk(s: State, c: nat)
    requires c < |s.cpus|
  {
    var q, v := |L(s.lists, Run(c))|, |L(s.lists, Victims(c))|;
    match s.cpus[c].mig
    case NoMigration => v == 0
    case Count(seen, total, my) =>
      v == 0 && my <= q && |seen| <= |s.cpus| && total == Sum(seen) && my == (if c < |seen| then seen[c] else 0)
    case TakeStart(toSend, share) => v == 0 && toSend + share <= q
    case Take(left, toSend, share) => left + share <= q && v + left == toSend
    case Send(_, toSend, _) => toSend <= v
    case SendTo(i, toSend, _) => toSend <= v && i < |s.cpus| && i != c
    case Return => true
    case PutBack => true
  }

  function Sum(a: seq<nat>): nat { if a == [] then 0 else Sum(a[..|a| - 1]) + a[|a| - 1] }

  predicate CurrentSomewhere(s: State, t: Tid)
    requires t in s.threads
  {
    s.threads[t].cpu < |s.cpus| && s.cpus[s.threads[t].cpu].cur == t
  }

  ghost predicate Cpus(s: State) {
    forall c :: 0 <= c < |s.cpus| ==> CurOk(s, c) && FlagsOk(s, c) && MigOk(s, c)
  }

  /** A run queue lock is held by the CPU whose program point says so. */
  ghost predicate Locks(s: State) {
    (forall c, d :: 0 <= c < |s.cpus| && 0 <= d < |s.cpus| ==> (s.cpus[d].lock == Some(c) <==> Holds(s, c, d))) &&
    (forall d :: 0 <= d < |s.cpus| && s.cpus[d].lock.Some? ==> s.cpus[d].lock.value < |s.cpus|)
  }

  ghost predicate Members(s: State) {
    forall id, t :: On(s.lists, id, t) ==> MemberOk(s, id, t)
  }

  /** No thread is lost: each is on a list or current on its CPU. */
  ghost predicate Present(s: State) {
    forall t :: t in s.threads ==> Somewhere(s.lists, t) || CurrentSomewhere(s, t)
  }

  ghost predicate Inv(s: State) {
    !s.fault && Unique(s.lists) && Cpus(s) && Locks(s) && Members(s) && Present(s)
  }

  // ------------------------------------------- steps that move no thread

  /** Only the program point, migration stage and flags of CPU c change, and
      possibly the lock of some CPU. */
  ghost predicate OnlyCpu(s: State, s': State, c: nat) {
    s'.threads == s.threads && s'.lists == s.lists && s'.fault == s.fault &&
    |s'.cpus| == |s.cpus| && c < |s.cpus| &&
    s'.cpus[c].cur == s.cpus[c].cur &&
    (Parked(s'.cpus[c].pc) <==> Parked(s.cpus[c].pc)) &&
    !s.cpus[c].pc.Placed? && !s'.cpus[c].pc.Placed? &&
    forall d :: 0 <= d < |s.cpus| && d != c ==> s'.cpus[d] == s.cpus[d].(lock := s'.cpus[d].lock)
  }

  lemma PcStep(s: State, s': State, c: nat)
    requires Inv(s) && OnlyCpu(s, s', c)
    requires FlagsOk(s', c) && MigOk(s', c) && Locks(s')
    ensures Inv(s')
  {
    forall d | 0 <= d < |s'.cpus| ensures CurOk(s', d) && FlagsOk(s', d) && MigOk(s', d) {
      assert CurOk(s, d) && FlagsOk(s, d) && MigOk(s, d);
    }
    forall id, t | On(s'.lists, id, t) ensures MemberOk(s', id, t) {
      assert MemberOk(s, id, t);
    }
    forall t | t in s'.threads ensures Somewhere(s'.lists, t) || CurrentSomewhere(s', t) {}
  }

  /** CPU c takes the free lock of CPU d. */
  lemma LockTaken(s: State, s': State, c: nat, d: nat)
    requires Locks(s) && |s'.cpus| == |s.cpus| && c < |s.cpus| && d < |s.cpus|
    requires s.cpus[d].lock == None && s'.cpus[d].lock == Some(c)
    requires forall x :: 0 <= x < |s.cpus| && x != d ==> s'.cpus[x].lock == s.cpus[x].lock
    requires forall x :: 0 <= x < |s.cpus| && x != c ==> s'.cpus[x].pc == s.cpus[x].pc && s'.cpus[x].mig == s.cpus[x].mig
    requires forall x :: 0 <= x < |s.cpus| ==> (Holds(s', c, x) <==> x == d)
    requires forall x :: 0 <= x < |s.cpus| ==> !Holds(s, c, x)
    ensures Locks(s')
  {
    forall x, y | 0 <= x < |s'.cpus| && 0 <= y < |s'.cpus|
      ensures s'.cpus[y].lock == Some(x) <==> Holds(s', x, y)
    {
      assert s.cpus[y].lock == Some(x) <==> Holds(s, x, y);
    }
  }

  /** CPU c gives up the lock of CPU d, the only one it holds. */
  lemma LockGiven(s: State, s': State, c: nat, d: nat)
    requires Locks(s) && |s'.cpus| == |s.cpus| && c < |s.cpus| && d < |s.cpus|
    requires s'.cpus[d].lock == None
    requires forall x :: 0 <= x < |s.cpus| && x != d ==> s'.cpus[x].lock == s.cpus[x].lock
    requires forall x :: 0 <= x < |s.cpus| && x != c ==> s'.cpus[x].pc == s.cpus[x].pc && s'.cpus[x].mig == s.cpus[x].mig
    requires forall x :: 0 <= x < |s.cpus| ==> (Holds(s, c, x) <==> x == d)
    requires forall x :: 0 <= x < |s.cpus| ==> !Holds(s', c, x)
    ensures Locks(s')
  {
    assert s.cpus[d].lock == Some(c) <==> Holds(s, c, d);
    forall x, y | 0 <= x < |s'.cpus| && 0 <= y < |s'.cpus|
      ensures s'.cpus[y].lock == Some(x) <==> Holds(s', x, y)
    {
      assert s.cpus[y].lock == Some(x) <==> Holds(s, x, y);
    }
  }

  /** Which locks are held, and by whom, does not change. */
  lemma LocksUntouched(s: State, s': State)
    requires Locks(s) && |s'.cpus| == |s.cpus|
    requires forall x :: 0 <= x < |s.cpus| ==> s'.cpus[x].lock == s.cpus[x].lock
    requires forall x, d :: 0 <= x < |s.cpus| && 0 <= d < |s.cpus| ==> (Holds(s', x, d) <==> Holds(s, x, d))
    ensures Locks(s')
  {}

  lemma KeepsSwitchLock(s: State, e: Event)
    requires Inv(s) && Enabled(s, e) && e.SwitchLock?
    ensures Inv(Do(s, e))
  {
    var c, s' := e.c, Do(s, e);
    assert FlagsOk(s, c) && MigOk(s, c) && CurOk(s, c);
    LockTaken(s, s', c, c);
    PcStep(s, s', c);
  }

  lemma KeepsUnidle(s: State, e: Event)
    requires Inv(s) && Enabled(s, e) && e.Unidle?
    ensures Inv(Do(s, e))
  {
    var c, s' := e.c, Do(s, e);
    assert FlagsOk(s, c) && MigOk(s, c) && CurOk(s, c);
    LockTaken(s, s', c, c);
    PcStep(s, s', c);
  }

  lemma KeepsUnlock(s: State, e: Event)
    requires Inv(s) && Enabled(s, e) && (e.SwitchNothing? || e.PickNone?)
    ensures Inv(Do(s, e))
  {
    var c, s' := e.c, Do(s, e);
    assert FlagsOk(s, c) && MigOk(s, c) && CurOk(s, c);
    LockGiven(s, s', c, c);
    PcStep(s, s', c);
  }

  lemma KeepsInterrupt(s: State, e: Event)
    requires Inv(s) && Enabled(s, e) && (e.Interrupt? || e.TakeIpi?)
    ensures Inv(Do(s, e))
  {
    var c, s' := e.c, Do(s, e);
    assert FlagsOk(s, c) && MigOk(s, c) && CurOk(s, c);
    LocksUntouched(s, s');
    PcStep(s, s', c);
  }

  lemma KeepsExorciseDone(s: State, e: Event)
    requires Inv(s) && Enabled(s, e) && e.ExorciseDone?
    ensures Inv(Do(s, e))
  {
    var c, s' := e.c, Do(s, e);
    assert FlagsOk(s, c) && MigOk(s, c) && CurOk(s, c);
    LocksUntouched(s, s');
    PcStep(s, s', c);
  }

  lemma KeepsMigStart(s: State, e: Event)
    requires Inv(s) && Enabled(s, e) && e.MigStart?
    ensures Inv(Do(s, e))
  {
    var c, s' := e.c, Do(s, e);
    assert FlagsOk(s, c) && MigOk(s, c) && CurOk(s, c);
    LocksUntouched(s, s');
    PcStep(s, s', c);
  }

  lemma KeepsMigCount(s: State, e: Event)
    requires Inv(s) && Enabled(s, e) && e.MigCount?
    ensures Inv(Do(s, e))
  {
    var c, s' := e.c, Do(s, e);
    assert FlagsOk(s, c) && MigOk(s, c) && CurOk(s, c);
    LocksUntouched(s, s');
    PcStep(s, s', c);
  }

  lemma KeepsMigDecide(s: State, e: Event)
    requires Inv(s) && Enabled(s, e) && e.MigDecide?
    ensures Inv(Do(s, e))
  {
    var c, s' := e.c, Do(s, e);
    assert FlagsOk(s, c) && MigOk(s, c) && CurOk(s, c);
    LocksUntouched(s, s');
    PcStep(s, s', c);
  }

  lemma KeepsMigLockOwn(s: State, e: Event)
    requires Inv(s) && Enabled(s, e) && e.MigLockOwn?
    ensures Inv(Do(s, e))
  {
    var c, s' := e.c, Do(s, e);
    assert FlagsOk(s, c) && MigOk(s, c) && CurOk(s, c);
    LockTaken(s, s', c, c);
    PcStep(s, s', c);
  }

  lemma KeepsMigTakeDone(s: State, e: Event)
    requires Inv(s) && Enabled(s, e) && e.MigTakeDone?
    ensures Inv(Do(s, e))
  {
    var c, s' := e.c, Do(s, e);
    assert FlagsOk(s, c) && MigOk(s, c) && CurOk(s, c);
    LockGiven(s, s', c, c);
    PcStep(s, s', c);
  }

  lemma KeepsMigSendDone(s: State, e: Event)
    requires Inv(s) && Enabled(s, e) && e.MigSendDone?
    ensures Inv(Do(s, e))
  {
    var c, s' := e.c, Do(s, e);
    assert FlagsOk(s, c) && MigOk(s, c) && CurOk(s, c);
    LockGiven(s, s', c, s.cpus[c].mig.i);
    PcStep(s, s', c);
  }

  lemma KeepsMigPutDone(s: State, e: Event)
    requires Inv(s) && Enabled(s, e) && e.MigPutDone?
    ensures Inv(Do(s, e))
  {
    var c, s' := e.c, Do(s, e);
    assert FlagsOk(s, c) && MigOk(s, c) && CurOk(s, c);
    LockGiven(s, s', c, c);
    PcStep(s, s', c);
  }

  lemma KeepsMigNext(s: State, c: nat)
    requires Inv(s) && c < |s.cpus| && s.cpus[c].mig.Send?
    requires s.cpus[c].mig.i < |s.cpus| && s.cpus[c].mig.toSend > 0 && s.cpus[c].mig.i != c ==> LockFree(s, s.cpus[c].mig.i)
    ensures Inv(DoMigNext(s, c))
  {
    var s' := DoMigNext(s, c);
    assert FlagsOk(s, c) && MigOk(s, c);
    MigNextLocks(s, c);
    PcStep(s, s', c);
  }

  lemma MigNextLocks(s: State, c: nat)
    requires Inv(s) && c < |s.cpus| && s.cpus[c].mig.Send?
    requires s.cpus[c].mig.i < |s.cpus| && s.cpus[c].mig.toSend > 0 && s.cpus[c].mig.i != c ==> LockFree(s, s.cpus[c].mig.i)
    ensures Locks(DoMigNext(s, c))
  {
    var s' := DoMigNext(s, c);
    assert FlagsOk(s, c);
    if s'.cpus[c].mig.SendTo? { LockTaken(s, s', c, s.cpus[c].mig.i); } else { LocksUntouched(s, s'); }
  }

  lemma KeepsMigReturn(s: State, e: Event)
    requires Inv(s) && Enabled(s, e) && e.MigReturn?
    ensures Inv(Do(s, e))
  {
    if L(s.lists, Victims(e.c)) == [] { KeepsMigOver(s, e); } else { KeepsMigPutBack(s, e); }
  }

  lemma KeepsMigOver(s: State, e: Event)
    requires Inv(s) && Enabled(s, e) && e.MigReturn? && L(s.lists, Victims(e.c)) == []
    ensures Inv(Do(s, e))
  {
    var c, s' := e.c, Do(s, e);
    assert FlagsOk(s, c) && MigOk(s, c) && CurOk(s, c);
    LocksUntouched(s, s');
    PcStep(s, s', c);
  }

  lemma KeepsMigPutBack(s: State, e: Event)
    requires Inv(s) && Enabled(s, e) && e.MigReturn? && L(s.lists, Victims(e.c)) != []
    ensures Inv(Do(s, e))
  {
    var c, s' := e.c, Do(s, e);
    assert FlagsOk(s, c) && MigOk(s, c) && CurOk(s, c);
    LockTaken(s, s', c, c);
    PcStep(s, s', c);
  }

  // ------------------------------------- steps that move a listed thread

  /** Thread t goes from list id to list id'; its own record may change, no
      other; no CPU's program point or current thread changes. */
  ghost predicate Moved(s: State, mid: Lists, s': State, id: ListId, id': ListId, t: Tid) {
    Removed(s.lists, mid, id, t) && Added(mid, s'.lists, id', t) &&
    !s'.fault && t in s.threads && s'.threads.Keys == s.threads.Keys &&
    (forall x :: x in s.threads && x != t ==> s'.threads[x] == s.threads[x]) &&
    |s'.cpus| == |s.cpus| &&
    (forall d :: 0 <= d < |s.cpus| ==>
      s'.cpus[d].cur == s.cpus[d].cur && s'.cpus[d].pc == s.cpus[d].pc && s'.cpus[d].idle == s.cpus[d].idle)
  }

  lemma MoveSomewhere(s: State, mid: Lists, s': State, id: ListId, id': ListId, t: Tid)
    requires Moved(s, mid, s', id, id', t)
    ensures forall x :: Somewhere(s'.lists, x) <==> Somewhere(s.lists, x)
  {
    assert On(s'.lists, id', t) && On(s.lists, id, t);
    forall x | x != t ensures Somewhere(s'.lists, x) <==> Somewhere(s.lists, x) {
      MovedOther(s, mid, s', id, id', t, x);
    }
  }

  lemma MovedOther(s: State, mid: Lists, s': State, id: ListId, id': ListId, t: Tid, x: Tid)
    requires Moved(s, mid, s', id, id', t) && x != t
    ensures forall k :: On(s'.lists, k, x) <==> On(s.lists, k, x)
  {}

  lemma MoveMembers(s: State, mid: Lists, s': State, id: ListId, id': ListId, t: Tid)
    requires Inv(s) && Moved(s, mid, s', id, id', t)
    requires MemberOk(s', id', t)
    ensures Members(s') && Present(s')
  {
    MoveSomewhere(s, mid, s', id, id', t);
    forall k, x | On(s'.lists, k, x) ensures MemberOk(s', k, x) {
      if x == t {
        assert On(s'.lists, id', t);
        assert k == id';
      } else {
        MovedOther(s, mid, s', id, id', t, x);
        assert MemberOk(s, k, x);
      }
    }
    forall x | x in s'.threads ensures Somewhere(s'.lists, x) || CurrentSomewhere(s', x) {
      assert Somewhere(s.lists, x) || CurrentSomewhere(s, x);
    }
  }

  /** The whole invariant after a move, from what is particular to it. */
  lemma MoveStep(s: State, mid: Lists, s': State, id: ListId, id': ListId, t: Tid)
    requires Inv(s) && Moved(s, mid, s', id, id', t)
    requires MemberOk(s', id', t) && Locks(s')
    requires forall d :: 0 <= d < |s.cpus| && s.cpus[d].cur == t ==> s'.threads[t].cpu == s.threads[t].cpu
    requires forall d :: 0 <= d < |s.cpus| && s.cpus[d].cur == t && s.cpus[d].pc.Placed? ==>
      PlaceOk(s.cpus[d].pc.newstate, id')
    requires forall d :: 0 <= d < |s'.cpus| ==> FlagsOk(s', d) && MigOk(s', d)
    ensures Inv(s')
  {
    MoveMembers(s, mid, s', id, id', t);
    forall d | 0 <= d < |s'.cpus| ensures CurOk(s', d) {
      assert CurOk(s, d);
      MoveCur(s, mid, s', id, id', t, d);
    }
  }

  lemma MoveCur(s: State, mid: Lists, s': State, id: ListId, id': ListId, t: Tid, d: nat)
    requires Moved(s, mid, s', id, id', t) && d < |s.cpus| && CurOk(s, d)
    requires s.cpus[d].cur == t ==> s'.threads[t].cpu == s.threads[t].cpu
    requires s.cpus[d].cur == t && s.cpus[d].pc.Placed? ==> PlaceOk(s.cpus[d].pc.newstate, id')
    ensures CurOk(s', d)
  {
    MoveSomewhere(s, mid, s', id, id', t);
    if s.cpus[d].cur != t {
      MovedOther(s, mid, s', id, id', t, s.cpus[d].cur);
    } else {
      assert On(s'.lists, id', t);
    }
  }

  lemma KeepsWakeTake(s: State, c: nat, w: nat)
    requires Inv(s) && Free(s, c) && L(s.lists, Wait(w)) != []
    ensures Inv(DoWakeTake(s, c, w))
  {
    var s', id, id' := DoWakeTake(s, c, w), Wait(w), Woken(c);
    var t, mid := Head(s.lists, id), RemHead(s.lists, id);
    RemHeadRemoves(s.lists, id);
    AddTailAdds(mid, id', t);
    assert On(s.lists, id, t) && MemberOk(s, id, t);
    forall d | 0 <= d < |s'.cpus| ensures FlagsOk(s', d) && MigOk(s', d) {
      assert FlagsOk(s, d) && MigOk(s, d);
    }
    forall d | 0 <= d < |s.cpus| && s.cpus[d].cur == t && s.cpus[d].pc.Placed?
      ensures PlaceOk(s.cpus[d].pc.newstate, id') {
      assert CurOk(s, d);
    }
    LocksUntouched(s, s');
    MoveStep(s, mid, s', id, id', t);
  }

  /** A CPU whose own stage does not change is still in order if its run queue
      did not shrink, and its other lists did not grow. */
  lemma FlagsFrame(s: State, s': State, d: nat)
    requires d < |s.cpus| == |s'.cpus| && FlagsOk(s, d) && MigOk(s, d)
    requires s'.cpus[d] == s.cpus[d].(ipi := s'.cpus[d].ipi)
    requires |L(s.lists, Run(d))| <= |L(s'.lists, Run(d))|
    requires L(s.lists, Victims(d)) == L(s'.lists, Victims(d))
    requires |L(s'.lists, Woken(d))| <= |L(s.lists, Woken(d))|
    requires s.cpus[d].pc == Asleep && L(s'.lists, Run(d)) != [] ==> s'.cpus[d].ipi
    ensures FlagsOk(s', d) && MigOk(s', d)
  {}

  /** thread_make_runnable(t, false) on a thread held by a waker or by the
      parent that created it. */
  lemma KeepsMakeRunnable(s: State, c: nat, id: ListId)
    requires Inv(s) && (id.Woken? || id.Newborn?) && L(s.lists, id) != []
    requires Free(s, c)
    requires Head(s.lists, id) in s.threads && LockFree(s, s.threads[Head(s.lists, id)].cpu)
    ensures Inv(MakeRunnable(DropHead(s, id), c, Head(s.lists, id)))
  {
    var t, mid := Head(s.lists, id), RemHead(s.lists, id);
    var target, s' := s.threads[t].cpu, MakeRunnable(DropHead(s, id), c, t);
    RemHeadRemoves(s.lists, id);
    AddTailAdds(mid, Run(target), t);
    assert MemberOk(s, id, t) by { assert On(s.lists, id, t); }
    MakeRunnableFlags(s, c, id);
    forall d | 0 <= d < |s.cpus| && s.cpus[d].cur == t ensures !s.cpus[d].pc.Placed? {
      assert CurOk(s, d);
      assert s.cpus[d].lock == Some(d) <==> Holds(s, d, d);
    }
    MoveStep(s, mid, s', id, Run(target), t);
  }

  lemma MakeRunnableFlags(s: State, c: nat, id: ListId)
    requires Inv(s) && (id.Woken? || id.Newborn?) && L(s.lists, id) != []
    requires Free(s, c)
    requires Head(s.lists, id) in s.threads && LockFree(s, s.threads[Head(s.lists, id)].cpu)
    ensures var s' := MakeRunnable(DropHead(s, id), c, Head(s.lists, id));
      Locks(s') && forall d :: 0 <= d < |s'.cpus| ==> FlagsOk(s', d) && MigOk(s', d)
  {
    var s' := MakeRunnable(DropHead(s, id), c, Head(s.lists, id));
    LocksUntouched(s, s');
    forall d | 0 <= d < |s'.cpus| ensures FlagsOk(s', d) && MigOk(s', d) { MakeRunnableCpu(s, c, id, d); }
  }

  lemma MakeRunnableCpu(s: State, c: nat, id: ListId, d: nat)
    requires Inv(s) && (id.Woken? || id.Newborn?) && L(s.lists, id) != []
    requires Free(s, c) && d < |s.cpus|
    requires Head(s.lists, id) in s.threads && LockFree(s, s.threads[Head(s.lists, id)].cpu)
    ensures var s' := MakeRunnable(DropHead(s, id), c, Head(s.lists, id)); FlagsOk(s', d) && MigOk(s', d)
  {
    assert FlagsOk(s, d) && MigOk(s, d);
    FlagsFrame(s, MakeRunnable(DropHead(s, id), c, Head(s.lists, id)), d);
  }

  lemma KeepsMigTakeOne(s: State, c: nat)
    requires Inv(s) && c < |s.cpus| && s.cpus[c].mig.Take? && s.cpus[c].mig.left > 0
    ensures Inv(DoMigTakeOne(s, c))
  {
    var id, id' := Run(c), Victims(c);
    assert FlagsOk(s, c) && MigOk(s, c);
    var s', t, mid := DoMigTakeOne(s, c), Last(s.lists, id), RemTail(s.lists, id);
    RemTailRemoves(s.lists, id);
    AddHeadAdds(mid, id', t);
    assert On(s.lists, id, t) && MemberOk(s, id, t);
    LocksUntouched(s, s');
    forall d | 0 <= d < |s'.cpus| ensures FlagsOk(s', d) && MigOk(s', d) {
      assert FlagsOk(s, d) && MigOk(s, d);
      if d != c { FlagsFrame(s, s', d); }
    }
    forall d | 0 <= d < |s.cpus| && s.cpus[d].cur == t ensures !s.cpus[d].pc.Placed? {
      assert CurOk(s, d);
    }
    MoveStep(s, mid, s', id, id', t);
  }

  lemma KeepsMigPutOne(s: State, c: nat)
    requires Inv(s) && c < |s.cpus| && s.cpus[c].mig == PutBack && L(s.lists, Victims(c)) != []
    ensures Inv(DoMigPutOne(s, c))
  {
    var id, id' := Victims(c), Run(c);
    assert FlagsOk(s, c) && MigOk(s, c);
    var s', t, mid := DoMigPutOne(s, c), Head(s.lists, id), RemHead(s.lists, id);
    RemHeadRemoves(s.lists, id);
    AddTailAdds(mid, id', t);
    assert On(s.lists, id, t) && MemberOk(s, id, t);
    LocksUntouched(s, s');
    forall d | 0 <= d < |s'.cpus| ensures FlagsOk(s', d) && MigOk(s', d) {
      assert FlagsOk(s, d) && MigOk(s, d);
      if d != c { FlagsFrame(s, s', d); }
    }
    forall d | 0 <= d < |s.cpus| && s.cpus[d].cur == t ensures !s.cpus[d].pc.Placed? {
      assert CurOk(s, d);
    }
    MoveStep(s, mid, s', id, id', t);
  }

  lemma KeepsMigSkip(s: State, c: nat)
    requires Inv(s) && SendMore(s, c)
    requires L(s.lists, Victims(c)) != [] && Head(s.lists, Victims(c)) == s.cpus[c].cur
    ensures Inv(DoMigSendOne(s, c))
  {
    var id := Victims(c);
    assert FlagsOk(s, c) && MigOk(s, c) && CurOk(s, c);
    var s', t, mid := DoMigSendOne(s, c), Head(s.lists, id), RemHead(s.lists, id);
    RemHeadRemoves(s.lists, id);
    AddTailAdds(mid, id, t);
    assert MemberOk(s, id, t) by { assert On(s.lists, id, t); }
    SkipFlags(s, c);
    forall d | 0 <= d < |s.cpus| && s.cpus[d].cur == t ensures !s.cpus[d].pc.Placed? {
      assert CurOk(s, d);
    }
    MoveStep(s, mid, s', id, id, t);
  }

  lemma SkipFlags(s: State, c: nat)
    requires Inv(s) && SendMore(s, c)
    requires L(s.lists, Victims(c)) != [] && Head(s.lists, Victims(c)) == s.cpus[c].cur
    ensures var s' := DoMigSendOne(s, c);
      Locks(s') && forall d :: 0 <= d < |s'.cpus| ==> FlagsOk(s', d) && MigOk(s', d)
  {
    var s' := DoMigSendOne(s, c);
    LocksUntouched(s, s');
    forall d | 0 <= d < |s'.cpus| ensures FlagsOk(s', d) && MigOk(s', d) {
      assert FlagsOk(s, d) && MigOk(s, d);
      if d != c { FlagsFrame(s, s', d); }
    }
  }

  lemma KeepsMigSend(s: State, c: nat)
    requires Inv(s) && SendMore(s, c)
    requires L(s.lists, Victims(c)) != [] && Head(s.lists, Victims(c)) != s.cpus[c].cur
    ensures Inv(DoMigSendOne(s, c))
  {
    var id, id' := Victims(c), Run(s.cpus[c].mig.i);
    var s', t, mid := DoMigSendOne(s, c), Head(s.lists, id), RemHead(s.lists, id);
    SendMoves(s, c);
    SendLocks(s, c);
    SendFlags(s, c);
    VictimNotCurrent(s, c, t);
    MoveStep(s, mid, s', id, id', t);
  }

  lemma SendMoves(s: State, c: nat)
    requires !s.fault && Unique(s.lists) && Members(s) && Cpus(s) && SendMore(s, c)
    requires L(s.lists, Victims(c)) != [] && Head(s.lists, Victims(c)) != s.cpus[c].cur
    ensures var id, id' := Victims(c), Run(s.cpus[c].mig.i);
      var s', t := DoMigSendOne(s, c), Head(s.lists, id);
      t in s.threads && s.threads[t].cpu == c &&
      Moved(s, RemHead(s.lists, id), s', id, id', t) && MemberOk(s', id', t)
  {
    var id, id' := Victims(c), Run(s.cpus[c].mig.i);
    var t := Head(s.lists, id);
    RemHeadRemoves(s.lists, id);
    AddTailAdds(RemHead(s.lists, id), id', t);
    assert MigOk(s, c);
    assert MemberOk(s, id, t) by { assert On(s.lists, id, t); }
  }

  /** A victim other than c's own current thread is current nowhere. */
  lemma VictimNotCurrent(s: State, c: nat, t: Tid)
    requires Cpus(s) && c < |s.cpus| && t in s.threads && s.threads[t].cpu == c && s.cpus[c].cur != t
    ensures forall d :: 0 <= d < |s.cpus| ==> s.cpus[d].cur != t
  {
    forall d | 0 <= d < |s.cpus| ensures s.cpus[d].cur != t { assert CurOk(s, d); }
  }

  lemma SendFlags(s: State, c: nat)
    requires Inv(s) && SendMore(s, c)
    requires L(s.lists, Victims(c)) != [] && Head(s.lists, Victims(c)) != s.cpus[c].cur
    requires Head(s.lists, Victims(c)) in s.threads
    ensures var s' := DoMigSendOne(s, c); forall d :: 0 <= d < |s'.cpus| ==> FlagsOk(s', d) && MigOk(s', d)
  {
    var s' := DoMigSendOne(s, c);
    forall d | 0 <= d < |s'.cpus| ensures FlagsOk(s', d) && MigOk(s', d) {
      assert FlagsOk(s, d) && MigOk(s, d);
      if d != c { FlagsFrame(s, s', d); }
    }
  }

  lemma SendLocks(s: State, c: nat)
    requires Locks(s) && SendMore(s, c)
    ensures Locks(DoMigSendOne(s, c))
  {
    SendCpus(s, DoMigSendOne(s, c), c);
    LocksUntouched(s, DoMigSendOne(s, c));
  }

  /** Sending changes no lock, and no program point but for the number to send. */
  lemma SendCpus(s: State, s': State, c: nat)
    requires SendMore(s, c) && s' == DoMigSendOne(s, c)
    ensures |s'.cpus| == |s.cpus|
    ensures forall x :: 0 <= x < |s.cpus| ==> s'.cpus[x].lock == s.cpus[x].lock && s'.cpus[x].pc == s.cpus[x].pc
    ensures forall x :: 0 <= x < |s.cpus| && x != c ==> s'.cpus[x].mig == s.cpus[x].mig
    ensures s'.cpus[c].mig.SendTo? && s'.cpus[c].mig.i == s.cpus[c].mig.i
  {}

  lemma KeepsMigSendOne(s: State, c: nat)
    requires Inv(s) && SendMore(s, c)
    ensures Inv(DoMigSendOne(s, c))
  {
    assert MigOk(s, c);
    if Head(s.lists, Victims(c)) == s.cpus[c].cur { KeepsMigSkip(s, c); } else { KeepsMigSend(s, c); }
  }

  // -------------------------- steps that change what is current or exists

  lemma KeepsFork(s: State, c: nat, t: Tid)
    requires Inv(s) && c < |s.cpus| && t !in s.threads && s.cpus[c].cur in s.threads
    ensures Inv(DoFork(s, c, t))
  {
    var s', id := DoFork(s, c, t), Newborn(s.cpus[c].cur);
    assert CurOk(s, c);
    forall k ensures !On(s.lists, k, t) { assert On(s.lists, k, t) ==> MemberOk(s, k, t); }
    AddTailAdds(s.lists, id, t);
    AddedSomewhere(s.lists, s'.lists, id, t);
    LocksUntouched(s, s');
    forall d | 0 <= d < |s'.cpus| ensures CurOk(s', d) && FlagsOk(s', d) && MigOk(s', d) {
      assert CurOk(s, d) && FlagsOk(s, d) && MigOk(s, d);
    }
    forall k, x | On(s'.lists, k, x) ensures MemberOk(s', k, x) {
      assert x != t ==> On(s.lists, k, x) && MemberOk(s, k, x);
    }
    forall x | x in s'.threads ensures Somewhere(s'.lists, x) || CurrentSomewhere(s', x) {
      assert x != t ==> Somewhere(s.lists, x) || CurrentSomewhere(s, x);
    }
  }

  lemma AddedSomewhere(ls: Lists, ls': Lists, id: ListId, t: Tid)
    requires Added(ls, ls', id, t)
    ensures Somewhere(ls', t)
    ensures forall k, x :: x != t ==> (On(ls', k, x) <==> On(ls, k, x))
    ensures forall x :: x != t ==> (Somewhere(ls', x) <==> Somewhere(ls, x))
    ensures !Somewhere(ls, t) ==> forall k :: On(ls', k, t) ==> k == id
  {
    assert On(ls', id, t);
    forall k, x | x != t ensures On(ls', k, x) <==> On(ls, k, x) {}
    forall x | x != t ensures Somewhere(ls', x) <==> Somewhere(ls, x) {
      if Somewhere(ls, x) { var k :| On(ls, k, x); assert On(ls', k, x); }
    }
  }

  lemma RemovedSomewhere(ls: Lists, ls': Lists, id: ListId, t: Tid)
    requires Removed(ls, ls', id, t)
    ensures forall k, x :: x != t ==> (On(ls', k, x) <==> On(ls, k, x))
    ensures forall x :: x != t ==> (Somewhere(ls', x) <==> Somewhere(ls, x))
    ensures forall k, x :: On(ls', k, x) ==> x != t && On(ls, k, x)
  {}

  /** The list that thread_switch puts the current thread on. */
  function PlaceOf(s: State, c: nat): ListId
    requires c < |s.cpus| && s.cpus[c].pc.Locked?
  {
    match s.cpus[c].pc.newstate
    case S_READY => Run(c)
    case S_ZOMBIE => Zombie(c)
    case _ => Wait(s.cpus[c].pc.channel)
  }

  /** s' is s with CPU c's current thread t queued on list id. */
  ghost predicate QueuedCurrent(s: State, s': State, c: nat, id: ListId) {
    c < |s.cpus| && s.cpus[c].pc.Locked? && !s'.fault &&
    s'.cpus == s.cpus[c := s.cpus[c].(pc := Placed(s.cpus[c].pc.newstate))] &&
    Added(s.lists, s'.lists, id, s.cpus[c].cur) && !Somewhere(s.lists, s.cpus[c].cur) &&
    s'.threads.Keys == s.threads.Keys &&
    (forall x :: x in s.threads ==> s'.threads[x].cpu == s.threads[x].cpu) &&
    (forall x :: x in s.threads && x != s.cpus[c].cur ==> s'.threads[x] == s.threads[x])
  }

  lemma KeepsPlace(s: State, c: nat)
    requires Inv(s) && c < |s.cpus| && s.cpus[c].pc.Locked?
    ensures s.cpus[c].cur in s.threads && Inv(DoPlace(s, c))
    ensures s.cpus[c].pc.newstate != S_RUN
    ensures L(DoPlace(s, c).lists, PlaceOf(s, c)) == L(s.lists, PlaceOf(s, c)) + [s.cpus[c].cur]
  {
    assert CurOk(s, c) && FlagsOk(s, c);
    assert s.cpus[c].lock == Some(c) <==> Holds(s, c, c);
    var s', id := DoPlace(s, c), PlaceOf(s, c);
    AddTailAdds(s.lists, id, s.cpus[c].cur);
    assert QueuedCurrent(s, s', c, id);
    PlaceLocks(s, s', c, id);
    PlaceCpus(s, s', c, id);
    PlaceMembers(s, s', c, id);
  }

  lemma PlaceLocks(s: State, s': State, c: nat, id: ListId)
    requires Inv(s) && QueuedCurrent(s, s', c, id)
    ensures Locks(s')
  {
    LocksUntouched(s, s');
  }

  lemma PlaceCpus(s: State, s': State, c: nat, id: ListId)
    requires Inv(s) && QueuedCurrent(s, s', c, id)
    requires id == PlaceOf(s, c)
    ensures Cpus(s')
  {
    PlaceOwnCpu(s, s', c, id);
    forall d | 0 <= d < |s'.cpus| && d != c ensures CurOk(s', d) && FlagsOk(s', d) && MigOk(s', d) {
      PlaceOtherCur(s, s', c, id, d);
      PlaceOtherFlags(s, s', c, id, d);
    }
  }

  lemma PlaceOtherCur(s: State, s': State, c: nat, id: ListId, d: nat)
    requires Cpus(s) && QueuedCurrent(s, s', c, id) && d < |s.cpus| && d != c
    ensures CurOk(s', d)
  {
    AddedSomewhere(s.lists, s'.lists, id, s.cpus[c].cur);
    assert CurOk(s, c) && CurOk(s, d);
  }

  lemma PlaceOtherFlags(s: State, s': State, c: nat, id: ListId, d: nat)
    requires Cpus(s) && QueuedCurrent(s, s', c, id) && id == PlaceOf(s, c) && d < |s.cpus| && d != c
    ensures FlagsOk(s', d) && MigOk(s', d)
  {
    assert FlagsOk(s, c) && CurOk(s, c) && FlagsOk(s, d) && MigOk(s, d);
    FlagsFrame(s, s', d);
  }

  lemma PlaceOwnCpu(s: State, s': State, c: nat, id: ListId)
    requires Inv(s) && QueuedCurrent(s, s', c, id)
    requires id == PlaceOf(s, c)
    ensures CurOk(s', c) && FlagsOk(s', c) && MigOk(s', c)
  {
    AddedSomewhere(s.lists, s'.lists, id, s.cpus[c].cur);
    assert FlagsOk(s, c) && MigOk(s, c) && CurOk(s, c);
  }

  lemma PlaceMembers(s: State, s': State, c: nat, id: ListId)
    requires Inv(s) && QueuedCurrent(s, s', c, id)
    requires MemberOk(s', id, s.cpus[c].cur)
    ensures Members(s') && Present(s')
  {
    var t := s.cpus[c].cur;
    AddedSomewhere(s.lists, s'.lists, id, t);
    forall k, x | On(s'.lists, k, x) ensures MemberOk(s', k, x) {
      if x != t { assert On(s.lists, k, x) && MemberOk(s, k, x); }
    }
    forall x | x in s'.threads ensures Somewhere(s'.lists, x) || CurrentSomewhere(s', x) {
      assert Somewhere(s.lists, x) || CurrentSomewhere(s, x);
    }
  }

  lemma KeepsSetState(s: State, c: nat)
    requires Inv(s) && c < |s.cpus| && s.cpus[c].pc.Placed?
    ensures s.cpus[c].cur in s.threads && Inv(DoSetState(s, c))
  {
    assert CurOk(s, c) && FlagsOk(s, c) && MigOk(s, c);
    var s', t := DoSetState(s, c), s.cpus[c].cur;
    LocksUntouched(s, s');
    forall d | 0 <= d < |s'.cpus| ensures CurOk(s', d) && FlagsOk(s', d) && MigOk(s', d) {
      assert CurOk(s, d) && FlagsOk(s, d) && MigOk(s, d);
    }
    forall k, x | On(s'.lists, k, x) ensures MemberOk(s', k, x) {
      assert MemberOk(s, k, x);
    }
    forall x | x in s'.threads ensures Somewhere(s'.lists, x) || CurrentSomewhere(s', x) {
      assert Somewhere(s.lists, x) || CurrentSomewhere(s, x);
    }
  }

  lemma KeepsPickNext(s: State, c: nat)
    requires Inv(s) && c < |s.cpus| && s.cpus[c].pc == Picking && L(s.lists, Run(c)) != []
    ensures Inv(DoPickNext(s, c))
  {
    var s', t := DoPickNext(s, c), Head(s.lists, Run(c));
    RemHeadRemoves(s.lists, Run(c));
    RemovedSomewhere(s.lists, s'.lists, Run(c), t);
    assert MemberOk(s, Run(c), t) by { assert On(s.lists, Run(c), t); }
    LocksUntouched(s, s');
    forall d | 0 <= d < |s'.cpus| ensures CurOk(s', d) && FlagsOk(s', d) && MigOk(s', d) {
      assert CurOk(s, d) && FlagsOk(s, d) && MigOk(s, d);
      if d != c { FlagsFrame(s, s', d); }
    }
    PickNextMembers(s, c);
  }

  lemma PickNextMembers(s: State, c: nat)
    requires Inv(s) && c < |s.cpus| && s.cpus[c].pc == Picking && L(s.lists, Run(c)) != []
    ensures Members(DoPickNext(s, c)) && Present(DoPickNext(s, c))
  {
    var s', t := DoPickNext(s, c), Head(s.lists, Run(c));
    assert CurOk(s, c);
    RemHeadRemoves(s.lists, Run(c));
    RemovedSomewhere(s.lists, s'.lists, Run(c), t);
    assert MemberOk(s, Run(c), t) by { assert On(s.lists, Run(c), t); }
    forall k, x | On(s'.lists, k, x) ensures MemberOk(s', k, x) {
      assert MemberOk(s, k, x);
    }
    forall x | x in s'.threads ensures Somewhere(s'.lists, x) || CurrentSomewhere(s', x) {
      assert Somewhere(s.lists, x) || CurrentSomewhere(s, x);
    }
  }

  lemma KeepsFinish(s: State, c: nat)
    requires Inv(s) && c < |s.cpus| && s.cpus[c].pc == Switched
    ensures s.cpus[c].cur in s.threads && Inv(DoFinish(s, c))
  {
    assert CurOk(s, c) && FlagsOk(s, c) && MigOk(s, c);
    assert s.cpus[c].lock == Some(c) <==> Holds(s, c, c);
    var s', t := DoFinish(s, c), s.cpus[c].cur;
    LockGiven(s, s', c, c);
    forall d | 0 <= d < |s'.cpus| ensures CurOk(s', d) && FlagsOk(s', d) && MigOk(s', d) {
      assert CurOk(s, d) && FlagsOk(s, d) && MigOk(s, d);
    }
    forall k, x | On(s'.lists, k, x) ensures MemberOk(s', k, x) {
      assert MemberOk(s, k, x) && Somewhere(s.lists, x);
    }
    forall x | x in s'.threads ensures Somewhere(s'.lists, x) || CurrentSomewhere(s', x) {
      assert Somewhere(s.lists, x) || CurrentSomewhere(s, x);
    }
  }

  /** A zombie being destroyed is not current on any CPU. */
  lemma ZombieNotCurrent(s: State, c: nat, z: Tid)
    requires Inv(s) && c < |s.cpus| && s.cpus[c].pc == Exorcising && On(s.lists, Zombie(c), z)
    ensures forall d :: 0 <= d < |s.cpus| ==> s.cpus[d].cur != z
    ensures z in s.threads && s.threads[z].state == S_ZOMBIE
  {
    assert MemberOk(s, Zombie(c), z);
    assert CurOk(s, c);
    forall d | 0 <= d < |s.cpus| ensures s.cpus[d].cur != z {
      assert CurOk(s, d);
      assert Somewhere(s.lists, z);
    }
  }

  lemma KeepsExorcise(s: State, c: nat)
    requires Inv(s) && c < |s.cpus| && s.cpus[c].pc == Exorcising && L(s.lists, Zombie(c)) != []
    ensures Inv(DoExorcise(s, c))
  {
    var s', z := DoExorcise(s, c), Head(s.lists, Zombie(c));
    RemHeadRemoves(s.lists, Zombie(c));
    RemovedSomewhere(s.lists, s'.lists, Zombie(c), z);
    ZombieNotCurrent(s, c, z);
    LocksUntouched(s, s');
    forall d | 0 <= d < |s'.cpus| ensures CurOk(s', d) && FlagsOk(s', d) && MigOk(s', d) {
      assert CurOk(s, d) && FlagsOk(s, d) && MigOk(s, d);
    }
    forall k, x | On(s'.lists, k, x) ensures MemberOk(s', k, x) {
      assert MemberOk(s, k, x);
    }
    forall x | x in s'.threads ensures Somewhere(s'.lists, x) || CurrentSomewhere(s', x) {
      assert Somewhere(s.lists, x) || CurrentSomewhere(s, x);
    }
  }

  // ------------------------------------------------------------ whole runs

  lemma InitInv(s: State)
    requires Init(s)
    ensures Inv(s)
  {}

  lemma SwitchSteps(s: State, e: Event)
    requires Inv(s) && Enabled(s, e)
    requires e.SwitchLock? || e.SwitchNothing? || e.Place? || e.SetState? || e.PickNone? || e.PickNext? || e.Finish?
    ensures Inv(Do(s, e))
  {
    match e {
      case SwitchLock(_, _, _) => KeepsSwitchLock(s, e);
      case SwitchNothing(_) => KeepsUnlock(s, e);
      case Place(c) => KeepsPlace(s, c);
      case SetState(c) => KeepsSetState(s, c);
      case PickNone(_) => KeepsUnlock(s, e);
      case PickNext(c) => KeepsPickNext(s, c);
      case Finish(c) => KeepsFinish(s, c);
    }
  }

  lemma MigrationSteps(s: State, e: Event)
    requires Inv(s) && Enabled(s, e)
    requires e.MigStart? || e.MigCount? || e.MigDecide? || e.MigLockOwn? || e.MigTakeOne? || e.MigTakeDone? ||
             e.MigNext? || e.MigSendOne? || e.MigSendDone? || e.MigReturn? || e.MigPutOne? || e.MigPutDone?
    ensures Inv(Do(s, e))
  {
    match e {
      case MigStart(_) => KeepsMigStart(s, e);
      case MigCount(_) => KeepsMigCount(s, e);
      case MigDecide(_) => KeepsMigDecide(s, e);
      case MigLockOwn(_) => KeepsMigLockOwn(s, e);
      case MigTakeOne(c) => KeepsMigTakeOne(s, c);
      case MigTakeDone(_) => KeepsMigTakeDone(s, e);
      case MigNext(c) => KeepsMigNext(s, c);
      case MigSendOne(c) => KeepsMigSendOne(s, c);
      case MigSendDone(_) => KeepsMigSendDone(s, e);
      case MigReturn(_) => KeepsMigReturn(s, e);
      case MigPutOne(c) => KeepsMigPutOne(s, c);
      case MigPutDone(_) => KeepsMigPutDone(s, e);
    }
  }

  lemma OtherSteps(s: State, e: Event)
    requires Inv(s) && Enabled(s, e)
    requires e.Fork? || e.MakeNewbornRunnable? || e.WakeTake? || e.WakeMake? || e.Exorcise? || e.ExorciseDone? ||
             e.Interrupt? || e.TakeIpi? || e.Unidle?
    ensures Inv(Do(s, e))
  {
    match e {
      case Fork(c, t) => KeepsFork(s, c, t);
      case MakeNewbornRunnable(c) => KeepsMakeRunnable(s, c, Newborn(s.cpus[c].cur));
      case WakeTake(c, w) => KeepsWakeTake(s, c, w);
      case WakeMake(c) => KeepsMakeRunnable(s, c, Woken(c));
      case Exorcise(c) => KeepsExorcise(s, c);
      case ExorciseDone(_) => KeepsExorciseDone(s, e);
      case Interrupt(_) => KeepsInterrupt(s, e);
      case TakeIpi(_) => KeepsInterrupt(s, e);
      case Unidle(_) => KeepsUnidle(s, e);
    }
  }

  /** Every step of every CPU keeps the invariant. */
  lemma StepKeepsInv(s: State, e: Event)
    requires Inv(s) && Enabled(s, e)
    ensures Inv(Do(s, e))
  {
    if e.SwitchLock? || e.SwitchNothing? || e.Place? || e.SetState? || e.PickNone? || e.PickNext? || e.Finish? {
      SwitchSteps(s, e);
    } else if e.Fork? || e.MakeNewbornRunnable? || e.WakeTake? || e.WakeMake? || e.Exorcise? || e.ExorciseDone? ||
              e.Interrupt? || e.TakeIpi? || e.Unidle? {
      OtherSteps(s, e);
    } else {
      MigrationSteps(s, e);
    }
  }

  /** s' is reached from s by the given steps, in any interleaving of CPUs. */
  ghost predicate Reaches(s: State, events: seq<Event>, s': State)
    decreases |events|
  {
    if events == [] then s' == s
    else Enabled(s, events[0]) && Reaches(Do(s, events[0]), events[1..], s')
  }

  lemma {:induction false} RunKeepsInv(s: State, events: seq<Event>, s': State)
    requires Inv(s) && Reaches(s, events, s')
    ensures Inv(s')
    decreases |events|
  {
    if events != [] {
      StepKeepsInv(s, events[0]);
      RunKeepsInv(Do(s, events[0]), events[1..], s');
    }
  }

  /** What holds in every reachable state: no assertion has failed; no thread is
      current on two CPUs; each thread is on at most one list, once; run queues
      hold their own CPU's threads only; every current thread still exists. */
  lemma ReachableIsSafe(s0: State, events: seq<Event>, s: State)
    requires Init(s0) && Reaches(s0, events, s)
    ensures !s.fault
    ensures forall c, d :: 0 <= c < d < |s.cpus| ==> s.cpus[c].cur != s.cpus[d].cur
    ensures Unique(s.lists)
    ensures forall c, t :: t in L(s.lists, Run(c)) ==> t in s.threads && s.threads[t].cpu == c
    ensures forall c :: 0 <= c < |s.cpus| ==> s.cpus[c].cur in s.threads && s.threads[s.cpus[c].cur].cpu == c
    ensures forall id, t :: t in L(s.lists, id) ==> t in s.threads
    ensures forall t :: t in s.threads ==> Somewhere(s.lists, t) || exists c :: 0 <= c < |s.cpus| && s.cpus[c].cur == t
  {
    InitInv(s0);
    RunKeepsInv(s0, events, s);
    forall c | 0 <= c < |s.cpus| ensures s.cpus[c].cur in s.threads && s.threads[s.cpus[c].cur].cpu == c {
      assert CurOk(s, c);
    }
    forall id, t | t in L(s.lists, id) ensures MemberOk(s, id, t) { assert On(s.lists, id, t); }
  }

  /** No wakeup of an idle CPU is lost: a CPU asleep in cpu_idle with a thread on
      its run queue has an interprocessor interrupt pending. */
  lemma SleepingCpuHasNoUnseenWork(s0: State, events: seq<Event>, s: State, c: nat)
    requires Init(s0) && Reaches(s0, events, s)
    requires c < |s.cpus| && s.cpus[c].pc == Asleep && L(s.lists, Run(c)) != []
    ensures s.cpus[c].ipi
  {
    InitInv(s0);
    RunKeepsInv(s0, events, s);
    assert FlagsOk(s, c);
  }

  /** The lock acquired by one thread in thread_switch is still held, by the same
      CPU, when the next thread comes to release it. */
  lemma LockSurvivesSwitch(s0: State, events: seq<Event>, s: State, c: nat)
    requires Init(s0) && Reaches(s0, events, s)
    requires c < |s.cpus| && s.cpus[c].pc == Switched
    ensures s.cpus[c].lock == Some(c)
    ensures !Somewhere(s.lists, s.cpus[c].cur)
  {
    InitInv(s0);
    RunKeepsInv(s0, events, s);
    assert CurOk(s, c);
    assert s.cpus[c].lock == Some(c) <==> Holds(s, c, c);
  }

  /** Migration, one sending step of CPU c in any reachable state: there is a
      thread to send; unless it is c's own current thread, which stays, it is
      nobody's current thread and joins the end of the target's queue, which
      ends no longer than one_share; no other run queue changes. */
  lemma SendIsGentle(s0: State, events: seq<Event>, s: State, c: nat)
    requires Init(s0) && Reaches(s0, events, s)
    requires SendMore(s, c)
    ensures L(s.lists, Victims(c)) != [] && Enabled(s, MigSendOne(c))
    ensures var t, i, s' := Head(s.lists, Victims(c)), s.cpus[c].mig.i, Do(s, MigSendOne(c));
      (forall d :: d != i ==> L(s'.lists, Run(d)) == L(s.lists, Run(d))) &&
      if t == s.cpus[c].cur then L(s'.lists, Run(i)) == L(s.lists, Run(i))
      else L(s'.lists, Run(i)) == L(s.lists, Run(i)) + [t] &&
           |L(s'.lists, Run(i))| <= s.cpus[c].mig.share &&
           (forall d :: 0 <= d < |s.cpus| ==> s.cpus[d].cur != t)
  {
    InitInv(s0);
    RunKeepsInv(s0, events, s);
    assert MigOk(s, c);
    var t := Head(s.lists, Victims(c));
    assert MemberOk(s, Victims(c), t) by { assert On(s.lists, Victims(c), t); }
    forall d | 0 <= d < |s.cpus| && d != c ensures s.cpus[d].cur != t { assert CurOk(s, d); }
    SendLists(s, c);
  }

  lemma SendLists(s: State, c: nat)
    requires SendMore(s, c) && L(s.lists, Victims(c)) != []
    ensures var t, i, ls' := Head(s.lists, Victims(c)), s.cpus[c].mig.i, DoMigSendOne(s, c).lists;
      (forall d :: d != i ==> L(ls', Run(d)) == L(s.lists, Run(d))) &&
      L(ls', Run(i)) == if t == s.cpus[c].cur then L(s.lists, Run(i)) else L(s.lists, Run(i)) + [t]
  {}

  /** The decision to migrate, from the queue lengths that were counted: the CPU
      goes on if and only if its own queue is at least the average; one_share is
      the least share with which all CPUs together have room for every thread; and
      what it will send is what it has above that. */
  lemma ShareIsAverage(s0: State, events: seq<Event>, s: State, c: nat)
    requires Init(s0) && Reaches(s0, events, s)
    requires c < |s.cpus| && s.cpus[c].mig.Count? && |s.cpus[c].mig.seen| == |s.cpus|
    ensures Enabled(s, MigDecide(c)) && c < |Do(s, MigDecide(c)).cpus|
    ensures var seen, m', n := s.cpus[c].mig.seen, Do(s, MigDecide(c)).cpus[c].mig, |s.cpus|;
      (m' == NoMigration || m'.TakeStart?) && (m'.TakeStart? <==> seen[c] * n >= Sum(seen)) &&
      (m'.TakeStart? ==> m'.toSend + m'.share == seen[c] && forall k: nat :: k * n >= Sum(seen) <==> k >= m'.share)
  {
    InitInv(s0);
    RunKeepsInv(s0, events, s);
    assert MigOk(s, c);
    var seen, n := s.cpus[c].mig.seen, |s.cpus|;
    forall k: nat ensures k * n >= Sum(seen) <==> k >= RoundUp(Sum(seen), n) { RoundUpLeast(Sum(seen), n, k); }
  }

  lemma RoundUpLeast(total: nat, n: nat, k: nat)
    requires n > 0
    ensures k * n >= total <==> k >= RoundUp(total, n)
  {
    var q := RoundUp(total, n);
    assert total + n - 1 == q * n + (total + n - 1) % n;
    if k >= q { Words.MulMono(q, k, n); } else { Words.MulMono(k + 1, q, n); }
  }

  /** Taking victims leaves the CPU itself at least one_share threads. */
  lemma OwnShareStays(s0: State, events: seq<Event>, s: State, c: nat)
    requires Init(s0) && Reaches(s0, events, s)
    requires c < |s.cpus| && s.cpus[c].mig.Take?
    ensures |L(s.lists, Run(c))| >= s.cpus[c].mig.left + s.cpus[c].mig.share
    ensures |L(s.lists, Victims(c))| + s.cpus[c].mig.left == s.cpus[c].mig.toSend
  {
    InitInv(s0);
    RunKeepsInv(s0, events, s);
    assert MigOk(s, c);
  }

  /** When CPU c is not migrating, its list of victims is empty. */
  lemma MigrationEndsClean(s0: State, events: seq<Event>, s: State, c: nat)
    requires Init(s0) && Reaches(s0, events, s)
    requires c < |s.cpus| && s.cpus[c].mig == NoMigration
    ensures L(s.lists, Victims(c)) == []
  {
    InitInv(s0);
    RunKeepsInv(s0, events, s);
    assert MigOk(s, c);
  }

  // ----------------------------------- the situation migration must watch for

  /** One CPU, whose only thread goes to sleep, is woken by an interrupt handler
      while the CPU idles on its stack, and is then on the run queue while still
      current. Stages of that run. */
  function Stage(i: nat): State {
    var th, ls := [Thread(S_READY, 0), Thread(S_SLEEP, 0)], map[Wait(5) := [0]];
    match i
    case 0 => State([Cpu(0, false, false, None, Running, NoMigration)], map[0 := th[0]], map[], false)
    case 1 => State([Cpu(0, false, false, Some(0), Locked(S_SLEEP, 5), NoMigration)], map[0 := th[0]], map[], false)
    case 2 => State([Cpu(0, false, false, Some(0), Placed(S_SLEEP), NoMigration)], map[0 := th[0]], ls, false)
    case 3 => State([Cpu(0, true, false, Some(0), Picking, NoMigration)], map[0 := th[1]], ls, false)
    case 4 => State([Cpu(0, true, false, None, Asleep, NoMigration)], map[0 := th[1]], ls, false)
    case 5 => State([Cpu(0, true, false, None, Awake, NoMigration)], map[0 := th[1]], ls, false)
    case 6 => State([Cpu(0, true, false, None, Awake, NoMigration)], map[0 := th[1]], map[Wait(5) := [], Woken(0) := [0]], false)
    case _ => State([Cpu(0, true, false, None, Awake, NoMigration)], map[0 := th[0]],
                    map[Wait(5) := [], Woken(0) := [], Run(0) := [0]], false)
  }

  function StageEvent(i: nat): Event {
    match i
    case 0 => SwitchLock(0, S_SLEEP, 5)
    case 1 => Place(0)
    case 2 => SetState(0)
    case 3 => PickNone(0)
    case 4 => Interrupt(0)
    case 5 => WakeTake(0, 5)
    case _ => WakeMake(0)
  }

  /** Event i leads from stage i to the next. */
  ghost predicate Leads(i: nat) {
    Enabled(Stage(i), StageEvent(i)) && Do(Stage(i), StageEvent(i)) == Stage(i + 1)
  }

  lemma SleepStages()
    ensures Leads(0) && Leads(1)
  {
    SameState(Do(Stage(0), StageEvent(0)), Stage(1));
    NothingListed(map[]);
    assert L(Stage(1).lists, Wait(5)) + [0] == [0];
    SameState(Do(Stage(1), StageEvent(1)), Stage(2));
  }

  lemma IdleStages()
    ensures Leads(2) && Leads(3)
  {
    SameState(Do(Stage(2), StageEvent(2)), Stage(3));
    SameState(Do(Stage(3), StageEvent(3)), Stage(4));
  }

  lemma InterruptStage()
    ensures Leads(4)
  {}

  lemma TakeStage()
    ensures Leads(5)
  {
    var empty := RemHead(Stage(5).lists, Wait(5));
    assert [0][1..] == [] && [] + [0] == [0];
    NothingListed(empty);
    assert AddTail(empty, Woken(0), 0) == Stage(6).lists;
    SameState(Do(Stage(5), StageEvent(5)), Stage(6));
  }

  lemma WakeLists()
    ensures AddTail(RemHead(Stage(6).lists, Woken(0)), Run(0), 0) == Stage(7).lists
    ensures !Somewhere(RemHead(Stage(6).lists, Woken(0)), 0)
  {
    assert [0][1..] == [] && [] + [0] == [0];
    NothingListed(RemHead(Stage(6).lists, Woken(0)));
  }

  lemma WakeStage()
    ensures Leads(6)
  {
    WakeLists();
    SameState(Do(Stage(6), StageEvent(6)), Stage(7));
  }

  lemma StepBefore(s: State, e: Event, s1: State, rest: seq<Event>, s': State) returns (events: seq<Event>)
    requires Enabled(s, e) && Do(s, e) == s1 && Reaches(s1, rest, s')
    ensures Reaches(s, events, s')
  {
    events := [e] + rest;
    assert events[1..] == rest;
  }

  lemma LateStages() returns (events: seq<Event>)
    ensures Reaches(Stage(4), events, Stage(7))
  {
    WakeStage();
    events := StepBefore(Stage(6), StageEvent(6), Stage(7), [], Stage(7));
    TakeStage();
    events := StepBefore(Stage(5), StageEvent(5), Stage(6), events, Stage(7));
    InterruptStage();
    events := StepBefore(Stage(4), StageEvent(4), Stage(5), events, Stage(7));
  }

  lemma AllStages() returns (events: seq<Event>)
    ensures Reaches(Stage(0), events, Stage(7))
  {
    events := LateStages();
    IdleStages();
    events := StepBefore(Stage(3), StageEvent(3), Stage(4), events, Stage(7));
    events := StepBefore(Stage(2), StageEvent(2), Stage(3), events, Stage(7));
    SleepStages();
    events := StepBefore(Stage(1), StageEvent(1), Stage(2), events, Stage(7));
    events := StepBefore(Stage(0), StageEvent(0), Stage(1), events, Stage(7));
  }

  lemma NothingListed(ls: Lists)
    requires forall id :: id in ls ==> ls[id] == []
    ensures forall t :: !Somewhere(ls, t)
  {}

  lemma SameState(s: State, s': State)
    requires s.cpus == s'.cpus && s.threads == s'.threads && s.lists == s'.lists && s.fault == s'.fault
    ensures s == s'
  {}

  /** A current thread can be on its own CPU's run queue, where migration may meet
      it. */
  lemma CurrentOnRunQueueReachable() returns (s0: State, events: seq<Event>, s: State)
    ensures Init(s0) && Reaches(s0, events, s)
    ensures |s.cpus| == 1 && Free(s, 0) && s.cpus[0].idle && s.cpus[0].cur in L(s.lists, Run(0))
  {
    events := AllStages();
    s0, s := Stage(0), Stage(7);
  }
}
