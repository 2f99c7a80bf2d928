/** kern/thread/spl.c and kern/thread/spinlock.c on a multiprocessor, with the
    context switch of thread.c that hands a held run queue lock from one thread to
    the next. */
module Spl {
  type Tid = nat
  type Lock = nat

  /** t_curspl (0 for IPL_NONE, 1 for IPL_HIGH) and t_iplhigh_count. */
  datatype Thread = Thread(curspl: nat, count: int)

  /** Where a CPU is in spinlock_acquire or spinlock_release: spinning; past the
      test-and-set but with splk_holder not yet set; holder cleared but the lock
      word not yet. */
  datatype Pc = Plain | Spinning(l: Lock) | Won(l: Lock) | Releasing(l: Lock)

  /** Whether the CPU is in the window of cpu_idle in which interrupts are on
      although the spl level is high, or in an interrupt taken there. */
  datatype Idling = NotIdling | Window | Interrupted

  datatype Cpu = Cpu(cur: Tid, irqOff: bool, spinlocks: int, pc: Pc, idling: Idling)

  /** words: the locks whose splk_lock is 1; holder: splk_holder where not NULL.
      halted: a caller broke the rules and was stopped by a panic or KASSERT. */
  datatype State = State(cpus: seq<Cpu>, threads: map<Tid, Thread>, words: set<Lock>,
                         holder: map<Lock, nat>, halted: bool, fault: bool)

  datatype Event =
    | Splx(c: nat, spl: nat)
    | AcquireStart(c: nat, l: Lock)
    | TestAndSet(c: nat)
    | SetHolder(c: nat)
    | ReleaseStart(c: nat, l: Lock)
    | ClearWord(c: nat)
    | Create(c: nat, t: Tid)
    | Switch(c: nat, rq: Lock, next: Tid)
    | TrapEnter(c: nat)
    | TrapExit(c: nat)
    | IdleStart(c: nat)
    | IdleTrapEnter(c: nat)
    | IdleTrapExit(c: nat)
    | IdleEnd(c: nat)

  /** splraise and spllower on the current thread of CPU c. */
  function Raise(s: State, c: nat): State
    requires c < |s.cpus| && s.cpus[c].cur in s.threads
  {
    var t := s.cpus[c].cur;
    var n := s.threads[t].count;
    s.(threads := s.threads[t := s.threads[t].(count := n + 1)],
       cpus := s.cpus[c := s.cpus[c].(irqOff := if n == 0 then true else s.cpus[c].irqOff)])
  }

  function Lower(s: State, c: nat): State
    requires c < |s.cpus| && s.cpus[c].cur in s.threads
  {
    var t := s.cpus[c].cur;
    var n := s.threads[t].count - 1;
    s.(threads := s.threads[t := s.threads[t].(count := n)], fault := s.fault || n < 0,
       cpus := s.cpus[c := s.cpus[c].(irqOff := if n == 0 then false else s.cpus[c].irqOff)])
  }

  function SetSpl(s: State, c: nat, spl: nat): State
    requires c < |s.cpus| && s.cpus[c].cur in s.threads
  {
    var t := s.cpus[c].cur;
    s.(threads := s.threads[t := s.threads[t].(curspl := spl)])
  }

  function SetPc(s: State, c: nat, pc: Pc): State
    requires c < |s.cpus|
  {
    s.(cpus := s.cpus[c := s.cpus[c].(pc := pc)])
  }

  function AddSpinlocks(s: State, c: nat, d: int): State
    requires c < |s.cpus|
  {
    s.(cpus := s.cpus[c := s.cpus[c].(spinlocks := s.cpus[c].spinlocks + d)])
  }

  /** Locks whose splk_holder is CPU c. */
  ghost function HeldBy(s: State, c: nat): set<Lock> {
    set l | l in s.holder && s.holder[l] == c
  }

  ghost predicate Enabled(s: State, e: Event) {
    !s.halted && e.c < |s.cpus| && s.cpus[e.c].cur in s.threads &&
    var cpu := s.cpus[e.c];
    (cpu.idling == Window <==> e.IdleTrapEnter? || e.IdleEnd?) &&
    match e
    case Splx(_, spl) => cpu.pc == Plain && spl <= 1
    case AcquireStart(_, _) => cpu.pc == Plain
    case TestAndSet(_) => cpu.pc.Spinning? && cpu.pc.l !in s.words
    case SetHolder(_) => cpu.pc.Won?
    case ReleaseStart(_, _) => cpu.pc == Plain
    case ClearWord(_) => cpu.pc.Releasing?
    case Create(_, t) => cpu.pc == Plain && t !in s.threads
    case Switch(c, rq, next) => CanSwitch(s, c, rq, next) && HeldBy(s, c) == {rq}
    case TrapEnter(_) => cpu.pc == Plain && !cpu.irqOff
    case TrapExit(_) => cpu.pc == Plain && cpu.idling == NotIdling
    case IdleStart(c) => cpu.pc == Plain && cpu.idling == NotIdling && HeldBy(s, c) == {} && s.threads[cpu.cur].curspl == 1
    case IdleTrapEnter(_) => true
    case IdleTrapExit(c) => cpu.pc == Plain && cpu.idling == Interrupted && s.threads[cpu.cur].curspl == 1
    case IdleEnd(_) => true
  }

  /** thread_switch holds the run queue lock and has picked a thread that no other
      CPU runs; an interrupt in the idle loop does not switch. */
  ghost predicate CanSwitch(s: State, c: nat, rq: Lock, next: Tid) {
    c < |s.cpus| && s.cpus[c].pc == Plain && s.cpus[c].idling == NotIdling && rq in HeldBy(s, c) && next in s.threads &&
    forall d :: 0 <= d < |s.cpus| && d != c ==> s.cpus[d].cur != next
  }

  function SwitchTo(s: State, c: nat, next: Tid): State
    requires c < |s.cpus|
  {
    s.(cpus := s.cpus[c := s.cpus[c].(cur := next)])
  }

  function SetIdling(s: State, c: nat, irqOff: bool, i: Idling): State
    requires c < |s.cpus|
  {
    s.(cpus := s.cpus[c := s.cpus[c].(irqOff := irqOff, idling := i)])
  }

  ghost function Do(s: State, e: Event): State
    requires Enabled(s, e)
  {
    var c := e.c;
    var t := s.cpus[c].cur;
    match e
    case Splx(_, spl) =>
      if s.threads[t].curspl < spl then SetSpl(Raise(s, c), c, spl)
      else if s.threads[t].curspl > spl then Lower(SetSpl(s, c, spl), c)
      else s
    case AcquireStart(_, l) =>
      if l in s.holder && s.holder[l] == c then s.(halted := true)
      else SetPc(AddSpinlocks(Raise(s, c), c, 1), c, Spinning(l))
    case TestAndSet(_) => SetPc(s.(words := s.words + {s.cpus[c].pc.l}), c, Won(s.cpus[c].pc.l))
    case SetHolder(_) => SetPc(s.(holder := s.holder[s.cpus[c].pc.l := c]), c, Plain)
    case ReleaseStart(_, l) =>
      if l !in s.holder || s.holder[l] != c then s.(halted := true)
      else SetPc(AddSpinlocks(s.(holder := s.holder - {l}, fault := s.fault || s.cpus[c].spinlocks <= 0), c, -1), c, Releasing(l))
    case ClearWord(_) => SetPc(Lower(s.(words := s.words - {s.cpus[c].pc.l}), c), c, Plain)
    case Create(_, u) => s.(threads := s.threads[u := Thread(1, 2)])
    case Switch(_, _, next) => SwitchTo(s, c, next)
    case TrapEnter(_) => DoTrapEnter(s, c)
    case TrapExit(_) => DoTrapExit(s, c)
    case IdleStart(_) => SetIdling(s, c, false, Window)
    case IdleTrapEnter(_) => SetIdling(s, c, true, Interrupted)
    case IdleTrapExit(_) => SetIdling(s, c, false, Window)
    case IdleEnd(_) => SetIdling(s, c, true, NotIdling)
  }

  /** mips_trap on an interrupt: the processor has turned interrupts off, and the
      recorded state is adjusted to match. */
  function DoTrapEnter(s: State, c: nat): State
    requires c < |s.cpus| && s.cpus[c].cur in s.threads
  {
    var t := s.cpus[c].cur;
    var th := s.threads[t];
    var s1 := s.(cpus := s.cpus[c := s.cpus[c].(irqOff := true)]);
    if th.curspl == 0
    then s1.(threads := s.threads[t := Thread(1, th.count + 1)], fault := s.fault || th.count != 0)
    else s1.(fault := true)
  }

  /** The end of the handler: the record is put back, and the return from the
      exception turns interrupts on. A handler that changed the level or kept a
      lock is stopped by the assertions. */
  function DoTrapExit(s: State, c: nat): State
    requires c < |s.cpus| && s.cpus[c].cur in s.threads
  {
    var t := s.cpus[c].cur;
    var th := s.threads[t];
    if th.curspl != 1 || th.count != 1 then s.(halted := true)
    else s.(threads := s.threads[t := Thread(0, th.count - 1)], cpus := s.cpus[c := s.cpus[c].(irqOff := false)])
  }

  ghost predicate Init(s: State) {
    s.words == {} && s.holder == map[] && !s.halted && !s.fault &&
    (forall c :: 0 <= c < |s.cpus| ==> s.cpus[c] == Cpu(c, true, 0, Plain, NotIdling)) &&
    (forall t :: t in s.threads <==> t < |s.cpus|) && forall t :: t in s.threads ==> s.threads[t] == Thread(1, 1)
  }

  // ------------------------------------------------------------ invariant

  predicate Entering(pc: Pc) { pc.Spinning? || pc.Won? }

  /** The current thread's count is its own spl level plus the locks its CPU
      holds, is acquiring or is still releasing; c_spinlocks counts the first
      two; interrupts are off exactly while the thread's count is positive, but
      for the window of cpu_idle. */
  ghost predicate CpuOk(s: State, c: nat)
    requires c < |s.cpus|
  {
    var cpu := s.cpus[c];
    cpu.cur in s.threads &&
    var th := s.threads[cpu.cur];
    th.curspl <= 1 &&
    th.count == th.curspl + |HeldBy(s, c)| + (if cpu.pc == Plain then 0 else 1) &&
    cpu.spinlocks == |HeldBy(s, c)| + (if Entering(cpu.pc) then 1 else 0) &&
    (cpu.irqOff <==> th.count > 0 && cpu.idling != Window) &&
    (cpu.idling == Window ==> cpu.pc == Plain && th.count > 0)
  }

  ghost predicate Current(s: State, t: Tid) { exists c :: 0 <= c < |s.cpus| && s.cpus[c].cur == t }

  /** A thread switched out, or not yet started, owes the release of the run
      queue lock it will be resumed with. */
  ghost predicate ParkedOk(s: State, t: Tid)
    requires t in s.threads
  {
    s.threads[t].curspl <= 1 && s.threads[t].count == s.threads[t].curspl + 1
  }

  /** CPU c has l: it holds it, has won it, or has not finished releasing it. */
  ghost predicate Has(s: State, c: nat, l: Lock)
    requires c < |s.cpus|
  {
    (l in s.holder && s.holder[l] == c) || s.cpus[c].pc == Won(l) || s.cpus[c].pc == Releasing(l)
  }

  predicate MidLock(pc: Pc) { pc.Won? || pc.Releasing? }

  /** A held lock has its word set and its holder is a CPU; a CPU in the middle of
      acquiring or releasing a lock has it to itself. */
  ghost predicate LocksOk(s: State) {
    (forall l :: l in s.holder ==> s.holder[l] < |s.cpus| && l in s.words) &&
    (forall c :: 0 <= c < |s.cpus| && MidLock(s.cpus[c].pc) ==>
      s.cpus[c].pc.l in s.words && s.cpus[c].pc.l !in s.holder) &&
    (forall c, d :: 0 <= c < d < |s.cpus| && MidLock(s.cpus[c].pc) && MidLock(s.cpus[d].pc) ==>
      s.cpus[c].pc.l != s.cpus[d].pc.l)
  }

  ghost predicate Inv(s: State) {
    !s.fault && LocksOk(s) &&
    (forall c :: 0 <= c < |s.cpus| ==> CpuOk(s, c)) &&
    (forall c, d :: 0 <= c < d < |s.cpus| ==> s.cpus[c].cur != s.cpus[d].cur) &&
    (forall t :: t in s.threads && !Current(s, t) ==> ParkedOk(s, t))
  }

  /** s' differs from s in what CPU c, its current thread and the locks do; no
      other CPU's locks are touched. */
  ghost predicate OnlyCpu(s: State, s': State, c: nat) {
    c < |s.cpus| == |s'.cpus| && s'.cpus[c].cur == s.cpus[c].cur && s'.threads.Keys == s.threads.Keys &&
    (forall d :: 0 <= d < |s.cpus| && d != c ==> s'.cpus[d] == s.cpus[d] && HeldBy(s', d) == HeldBy(s, d)) &&
    forall t :: t in s.threads && t != s.cpus[c].cur ==> s'.threads[t] == s.threads[t]
  }

  lemma CpuStep(s: State, s': State, c: nat)
    requires Inv(s) && OnlyCpu(s, s', c) && CpuOk(s', c) && LocksOk(s') && !s'.fault
    ensures Inv(s')
  {
    forall d | 0 <= d < |s'.cpus| ensures CpuOk(s', d) {
      if d != c {
        assert CpuOk(s, d);
        assert s.cpus[d].cur != s.cpus[c].cur;
      }
    }
    SameCurrent(s, s');
  }

  lemma SameCurrent(s: State, s': State)
    requires |s.cpus| == |s'.cpus| && forall d :: 0 <= d < |s.cpus| ==> s'.cpus[d].cur == s.cpus[d].cur
    ensures forall t :: Current(s', t) <==> Current(s, t)
  {}

  lemma KeepsSplx(s: State, e: Event)
    requires Inv(s) && Enabled(s, e) && e.Splx?
    ensures Inv(Do(s, e)) && s.cpus[e.c].cur in Do(s, e).threads && Do(s, e).threads[s.cpus[e.c].cur].curspl == e.spl
  {
    assert CpuOk(s, e.c);
    forall d ensures HeldBy(Do(s, e), d) == HeldBy(s, d) {}
    CpuStep(s, Do(s, e), e.c);
  }

  lemma KeepsTraps(s: State, e: Event)
    requires Inv(s) && Enabled(s, e) && (e.TrapEnter? || e.TrapExit?)
    ensures Inv(Do(s, e))
  {
    assert CpuOk(s, e.c);
    forall d ensures HeldBy(Do(s, e), d) == HeldBy(s, d) {}
    CpuStep(s, Do(s, e), e.c);
  }

  /** The return from an interrupt stops exactly the handlers that leaked: an
      splhigh undone, or a spinlock still held. */
  lemma TrapExitCatchesLeaks(s: State, c: nat)
    requires Inv(s) && Enabled(s, TrapExit(c))
    ensures Do(s, TrapExit(c)).halted <==> s.threads[s.cpus[c].cur].curspl == 0 || HeldBy(s, c) != {}
  {
    assert CpuOk(s, c);
  }

  lemma KeepsIdling(s: State, e: Event)
    requires Inv(s) && Enabled(s, e) && (e.IdleStart? || e.IdleTrapEnter? || e.IdleTrapExit? || e.IdleEnd?)
    ensures Inv(Do(s, e))
  {
    assert CpuOk(s, e.c);
    forall d ensures HeldBy(Do(s, e), d) == HeldBy(s, d) {}
    CpuStep(s, Do(s, e), e.c);
  }

  lemma KeepsAcquireStart(s: State, e: Event)
    requires Inv(s) && Enabled(s, e) && e.AcquireStart?
    ensures Inv(Do(s, e))
  {
    assert CpuOk(s, e.c);
    forall d ensures HeldBy(Do(s, e), d) == HeldBy(s, d) {}
    CpuStep(s, Do(s, e), e.c);
  }

  lemma KeepsTestAndSet(s: State, e: Event)
    requires Inv(s) && Enabled(s, e) && e.TestAndSet?
    ensures Inv(Do(s, e))
  {
    assert CpuOk(s, e.c);
    forall d ensures HeldBy(Do(s, e), d) == HeldBy(s, d) {}
    CpuStep(s, Do(s, e), e.c);
  }

  lemma KeepsSetHolder(s: State, e: Event)
    requires Inv(s) && Enabled(s, e) && e.SetHolder?
    ensures Inv(Do(s, e))
  {
    var c, l, s' := e.c, s.cpus[e.c].pc.l, Do(s, e);
    assert CpuOk(s, c);
    assert HeldBy(s', c) == HeldBy(s, c) + {l};
    forall d | d != c ensures HeldBy(s', d) == HeldBy(s, d) {}
    CpuStep(s, s', c);
  }

  lemma KeepsReleaseStart(s: State, e: Event)
    requires Inv(s) && Enabled(s, e) && e.ReleaseStart?
    ensures Inv(Do(s, e))
  {
    var c, l, s' := e.c, e.l, Do(s, e);
    assert CpuOk(s, c);
    if l in s.holder && s.holder[l] == c {
      assert l in HeldBy(s, c);
      assert HeldBy(s', c) == HeldBy(s, c) - {l};
      forall d | d != c ensures HeldBy(s', d) == HeldBy(s, d) {}
    } else {
      forall d ensures HeldBy(s', d) == HeldBy(s, d) {}
    }
    CpuStep(s, s', c);
  }

  lemma KeepsClearWord(s: State, e: Event)
    requires Inv(s) && Enabled(s, e) && e.ClearWord?
    ensures Inv(Do(s, e))
  {
    assert CpuOk(s, e.c);
    forall d ensures HeldBy(Do(s, e), d) == HeldBy(s, d) {}
    CpuStep(s, Do(s, e), e.c);
  }

  lemma KeepsCreate(s: State, e: Event)
    requires Inv(s) && Enabled(s, e) && e.Create?
    ensures Inv(Do(s, e))
  {
    var s' := Do(s, e);
    forall d ensures HeldBy(s', d) == HeldBy(s, d) {}
    forall d | 0 <= d < |s'.cpus| ensures CpuOk(s', d) { assert CpuOk(s, d); }
    SameCurrent(s, s');
  }

  /** The hand-over: the old thread keeps one count for the lock it will be given
      when it runs again, and the new one brings the count for this lock. */
  lemma KeepsSwitch(s: State, e: Event)
    requires Inv(s) && Enabled(s, e) && e.Switch?
    ensures Inv(Do(s, e))
  {
    var c, s', old_t := e.c, Do(s, e), s.cpus[e.c].cur;
    assert CpuOk(s, c);
    forall d ensures HeldBy(s', d) == HeldBy(s, d) {}
    assert |HeldBy(s, c)| == 1;
    assert ParkedOk(s, old_t);
    assert ParkedOk(s, e.next) by { if e.next != old_t { NotCurrent(s, e); } }
    forall d | 0 <= d < |s'.cpus| ensures CpuOk(s', d) { if d != c { assert CpuOk(s, d); } }
    forall t | t in s'.threads && !Current(s', t) ensures ParkedOk(s', t) {
      if t != old_t { StillNotCurrent(s, s', e, t); }
    }
  }

  /** No assertion in thread_switch says so, but a thread that gives up its CPU
      must hold no other spinlock: the counters survive the switch to another
      thread if and only if the run queue lock is the only one held. */
  lemma SwitchNeedsOneLock(s: State, c: nat, rq: Lock, next: Tid)
    requires Inv(s) && CanSwitch(s, c, rq, next) && next != s.cpus[c].cur && !s.halted
    ensures Inv(SwitchTo(s, c, next)) <==> HeldBy(s, c) == {rq}
  {
    assert CpuOk(s, c);
    if HeldBy(s, c) == {rq} { KeepsSwitch(s, Switch(c, rq, next)); }
    if Inv(SwitchTo(s, c, next)) { OneLock(s, SwitchTo(s, c, next), c, rq, next); }
  }

  lemma OneLock(s: State, s': State, c: nat, rq: Lock, next: Tid)
    requires Inv(s) && CanSwitch(s, c, rq, next) && next != s.cpus[c].cur && s' == SwitchTo(s, c, next) && Inv(s')
    ensures HeldBy(s, c) == {rq}
  {
    assert HeldBy(s', c) == HeldBy(s, c);
    assert CpuOk(s', c) && ParkedOk(s, next);
    Singleton(HeldBy(s, c), rq);
  }

  lemma Singleton(ls: set<Lock>, l: Lock)
    requires l in ls && |ls| == 1
    ensures ls == {l}
  {
    assert |ls - {l}| == 0;
  }

  lemma NotCurrent(s: State, e: Event)
    requires Enabled(s, e) && e.Switch? && e.next != s.cpus[e.c].cur
    ensures !Current(s, e.next)
  {}

  lemma StillNotCurrent(s: State, s': State, e: Event, t: Tid)
    requires Enabled(s, e) && e.Switch? && s' == Do(s, e) && t != s.cpus[e.c].cur && !Current(s', t)
    ensures !Current(s, t)
  {
    forall d | 0 <= d < |s.cpus| ensures s.cpus[d].cur != t { assert s'.cpus[d].cur != t; }
  }

  lemma StepKeepsInv(s: State, e: Event)
    requires Inv(s) && Enabled(s, e)
    ensures Inv(Do(s, e))
  {
    match e {
      case Splx(_, _) => KeepsSplx(s, e);
      case AcquireStart(_, _) => KeepsAcquireStart(s, e);
      case TestAndSet(_) => KeepsTestAndSet(s, e);
      case SetHolder(_) => KeepsSetHolder(s, e);
      case ReleaseStart(_, _) => KeepsReleaseStart(s, e);
      case ClearWord(_) => KeepsClearWord(s, e);
      case Create(_, _) => KeepsCreate(s, e);
      case Switch(_, _, _) => KeepsSwitch(s, e);
      case TrapEnter(_) => KeepsTraps(s, e);
      case TrapExit(_) => KeepsTraps(s, e);
      case _ => KeepsIdling(s, e);
    }
  }

  // ------------------------------------------------- what the calls do

  /** Nothing but the record of CPU c and of its current thread differs. */
  ghost predicate SameElsewhere(s: State, s': State, c: nat)
    requires c < |s.cpus|
  {
    |s'.cpus| == |s.cpus| && s'.words == s.words && s'.holder == s.holder && s'.halted == s.halted && s'.fault == s.fault &&
    s'.threads.Keys == s.threads.Keys &&
    (forall d :: 0 <= d < |s.cpus| && d != c ==> s'.cpus[d] == s.cpus[d]) &&
    (forall t :: t in s.threads && t != s.cpus[c].cur ==> s'.threads[t] == s.threads[t]) &&
    s'.cpus[c] == s.cpus[c].(irqOff := s'.cpus[c].irqOff)
  }

  /** splx, splhigh and spl0: the level of the current thread becomes the one asked
      for, interrupts are off if and only if that is high or a spinlock is held, and
      nothing else changes. */
  lemma SplxSetsLevel(s: State, c: nat, spl: nat)
    requires Inv(s) && Enabled(s, Splx(c, spl))
    ensures var s' := Do(s, Splx(c, spl));
      SameElsewhere(s, s', c) && s'.threads[s.cpus[c].cur].curspl == spl &&
      (s'.cpus[c].irqOff <==> spl == 1 || HeldBy(s, c) != {})
  {
    assert CpuOk(s, c);
    KeepsSplx(s, Splx(c, spl));
    var s' := Do(s, Splx(c, spl));
    assert HeldBy(s', c) == HeldBy(s, c);
    assert CpuOk(s', c);
  }

  /** The rules whose breaking stops the system: not to acquire a lock one's CPU
      holds, not to release one it does not hold, not to leave an interrupt handler
      with the level lowered or a lock held. */
  ghost predicate Breaks(s: State, e: Event)
    requires Enabled(s, e)
  {
    match e
    case AcquireStart(c, l) => l in HeldBy(s, c)
    case ReleaseStart(c, l) => l !in HeldBy(s, c)
    case TrapExit(c) => s.threads[s.cpus[c].cur].curspl == 0 || HeldBy(s, c) != {}
    case _ => false
  }

  /** The next point of CPU c in spinlock_acquire and spinlock_release, with the
      locks it holds there: the lock spun for is the one asked for, the one won is
      the one spun for, and exactly that one is held in the end; release takes
      exactly the one named. */
  ghost predicate LockEdge(s: State, s': State, c: nat)
    requires c < |s.cpus| == |s'.cpus|
  {
    match s.cpus[c].pc
    case Plain =>
      match s'.cpus[c].pc {
        case Plain => HeldBy(s', c) == HeldBy(s, c)
        case Spinning(l) => l !in HeldBy(s, c) && HeldBy(s', c) == HeldBy(s, c)
        case Won(_) => false
        case Releasing(l) => l in HeldBy(s, c) && HeldBy(s', c) == HeldBy(s, c) - {l}
      }
    case Spinning(l) => s'.cpus[c].pc == Won(l) && l !in s.words && l in s'.words && HeldBy(s', c) == HeldBy(s, c)
    case Won(l) => s'.cpus[c].pc == Plain && HeldBy(s', c) == HeldBy(s, c) + {l}
    case Releasing(l) => s'.cpus[c].pc == Plain && l !in s'.words && HeldBy(s', c) == HeldBy(s, c)
  }

  /** The point that an event of CPU c's own leads to. */
  function Next(s: State, e: Event): Pc
    requires e.c < |s.cpus|
  {
    match e
    case AcquireStart(_, l) => Spinning(l)
    case TestAndSet(_) => if s.cpus[e.c].pc.Spinning? then Won(s.cpus[e.c].pc.l) else Plain
    case SetHolder(_) => Plain
    case ReleaseStart(_, l) => Releasing(l)
    case ClearWord(_) => Plain
    case _ => s.cpus[e.c].pc
  }

  /** Every step, for every CPU c: those of others change neither its point nor its
      locks; its own follow the edges. In the middle of acquiring or releasing, the
      current thread and its level stay. */
  lemma StepFlow(s: State, e: Event, c: nat)
    requires Inv(s) && Enabled(s, e) && c < |s.cpus|
    ensures var s' := Do(s, e);
      (s'.halted <==> Breaks(s, e)) && |s'.cpus| == |s.cpus| &&
      (e.c != c || Breaks(s, e) ==> s'.cpus[c] == s.cpus[c] && HeldBy(s', c) == HeldBy(s, c)) &&
      (e.c == c && !Breaks(s, e) ==> s'.cpus[c].pc == Next(s, e) && LockEdge(s, s', c))
  {
    var s' := Do(s, e);
    assert CpuOk(s, e.c);
    if e.SetHolder? {
      HolderSet(s, s', e);
    } else if e.ReleaseStart? {
      HolderCleared(s, s', e);
    } else {
      forall d ensures HeldBy(s', d) == HeldBy(s, d) {}
    }
  }

  lemma HolderSet(s: State, s': State, e: Event)
    requires Inv(s) && Enabled(s, e) && e.SetHolder? && s' == Do(s, e)
    ensures HeldBy(s', e.c) == HeldBy(s, e.c) + {s.cpus[e.c].pc.l}
    ensures forall d :: d != e.c ==> HeldBy(s', d) == HeldBy(s, d)
  {
    forall d | d != e.c ensures HeldBy(s', d) == HeldBy(s, d) {}
  }

  lemma HolderCleared(s: State, s': State, e: Event)
    requires Enabled(s, e) && e.ReleaseStart? && s' == Do(s, e)
    ensures HeldBy(s', e.c) == if e.l in HeldBy(s, e.c) then HeldBy(s, e.c) - {e.l} else HeldBy(s, e.c)
    ensures forall d :: d != e.c ==> HeldBy(s', d) == HeldBy(s, d)
  {
    forall d | d != e.c ensures HeldBy(s', d) == HeldBy(s, d) {}
  }

  lemma LevelStays(s: State, e: Event, c: nat)
    requires Inv(s) && Enabled(s, e) && c < |s.cpus| && s.cpus[c].pc != Plain
    ensures var s' := Do(s, e);
      s'.cpus[c].cur == s.cpus[c].cur && s.cpus[c].cur in s.threads && s.cpus[c].cur in s'.threads &&
      s'.threads[s.cpus[c].cur].curspl == s.threads[s.cpus[c].cur].curspl
  {
    assert CpuOk(s, c) && CpuOk(s, e.c);
  }

  /** The run ends when CPU c is out of the call for the first time. */
  ghost predicate UntilReturn(s: State, events: seq<Event>, c: nat)
    requires Possible(s, events) && c < |s.cpus|
    decreases |events|
  {
    if events == [] then s.cpus[c].pc == Plain
    else
      s.cpus[c].pc != Plain && c < |Do(s, events[0]).cpus| && UntilReturn(Do(s, events[0]), events[1..], c)
  }

  /** What CPU c will hold when the call it is in returns. */
  ghost function WillHold(s: State, c: nat): set<Lock>
    requires c < |s.cpus|
  {
    if Entering(s.cpus[c].pc) then HeldBy(s, c) + {s.cpus[c].pc.l} else HeldBy(s, c)
  }

  /** spinlock_acquire and spinlock_release, over every run of all CPUs: acquiring l
      returns with l held besides what was held before, releasing l without it and
      with everything else; the thread that called returns, at the level it had. */
  lemma {:induction false} CallReturns(s: State, events: seq<Event>, c: nat)
    requires Inv(s) && Possible(s, events) && c < |s.cpus| && UntilReturn(s, events, c)
    ensures var s', t := Run(s, events), s.cpus[c].cur;
      c < |s'.cpus| && s'.cpus[c].pc == Plain && HeldBy(s', c) == WillHold(s, c) &&
      s'.cpus[c].cur == t && t in s.threads && t in s'.threads && s'.threads[t].curspl == s.threads[t].curspl
    decreases |events|
  {
    assert CpuOk(s, c);
    if events != [] {
      StepFlow(s, events[0], c);
      LevelStays(s, events[0], c);
      StepKeepsInv(s, events[0]);
      CallReturns(Do(s, events[0]), events[1..], c);
    }
  }

  /** An interrupt comes only when no lock is held; its handler runs with interrupts
      off at a high level; and a handler that leaks nothing leaves no trace. */
  lemma TrapLeavesNoTrace(s: State, c: nat)
    requires Inv(s) && Enabled(s, TrapEnter(c)) && s.cpus[c].idling == NotIdling
    ensures HeldBy(s, c) == {} && s.threads[s.cpus[c].cur] == Thread(0, 0)
    ensures var s1 := Do(s, TrapEnter(c));
      s1.cpus[c].irqOff && s1.threads[s.cpus[c].cur] == Thread(1, 1) &&
      Enabled(s1, TrapExit(c)) && Do(s1, TrapExit(c)) == s
  {
    assert CpuOk(s, c);
    var s1, t := Do(s, TrapEnter(c)), s.cpus[c].cur;
    var s2 := Do(s1, TrapExit(c));
    assert s2.cpus == s.cpus;
    assert s2.threads == s.threads;
  }

  /** cpu_idle: interrupts are on in its window, off in an interrupt taken there,
      and back to what they were in the end. */
  lemma IdleLeavesNoTrace(s: State, c: nat)
    requires Inv(s) && Enabled(s, IdleStart(c))
    ensures var s1 := Do(s, IdleStart(c));
      !s1.cpus[c].irqOff && s1.threads == s.threads && Enabled(s1, IdleEnd(c)) && Do(s1, IdleEnd(c)) == s &&
      Enabled(s1, IdleTrapEnter(c)) && var s2 := Do(s1, IdleTrapEnter(c));
      s2.cpus[c].irqOff && Enabled(s2, IdleTrapExit(c)) && Do(s2, IdleTrapExit(c)) == s1
  {
    assert CpuOk(s, c);
    var s1 := Do(s, IdleStart(c));
    assert Do(s1, IdleEnd(c)).cpus == s.cpus;
    var s2 := Do(s1, IdleTrapEnter(c));
    assert Do(s2, IdleTrapExit(c)).cpus == s1.cpus;
  }

  /** A switch changes who is current on CPU c and nothing else: the run queue lock
      is now the new thread's to release, and switching back would undo it. A new
      thread starts at a high level, owing the release of one lock. */
  lemma SwitchAndCreate(s: State, c: nat, rq: Lock, next: Tid)
    requires Inv(s) && c < |s.cpus|
    ensures Enabled(s, Switch(c, rq, next)) ==>
      var s' := Do(s, Switch(c, rq, next));
      s'.cpus[c].cur == next && HeldBy(s', c) == {rq} && SwitchTo(s', c, s.cpus[c].cur) == s
    ensures Enabled(s, Create(c, next)) ==>
      var s' := Do(s, Create(c, next));
      next in s'.threads && s'.threads[next].curspl == 1 && s'.threads - {next} == s.threads && s' == s.(threads := s'.threads)
  {
    if Enabled(s, Switch(c, rq, next)) {
      var s' := Do(s, Switch(c, rq, next));
      assert HeldBy(s', c) == HeldBy(s, c);
      assert SwitchTo(s', c, s.cpus[c].cur).cpus == s.cpus;
    }
  }

  ghost predicate Possible(s: State, events: seq<Event>)
    decreases |events|
  {
    events == [] || (Enabled(s, events[0]) && Possible(Do(s, events[0]), events[1..]))
  }

  ghost function Run(s: State, events: seq<Event>): State
    requires Possible(s, events)
    decreases |events|
  {
    if events == [] then s else Run(Do(s, events[0]), events[1..])
  }

  lemma {:induction false} RunKeepsInv(s: State, events: seq<Event>)
    requires Inv(s) && Possible(s, events)
    ensures Inv(Run(s, events))
    decreases |events|
  {
    if events != [] {
      StepKeepsInv(s, events[0]);
      RunKeepsInv(Do(s, events[0]), events[1..]);
    }
  }

  lemma InitInv(s: State)
    requires Init(s)
    ensures Inv(s)
  {
    forall c | 0 <= c < |s.cpus| ensures CpuOk(s, c) { assert HeldBy(s, c) == {}; }
    forall t | t in s.threads ensures Current(s, t) { assert s.cpus[t].cur == t; }
  }

  /** Over every interleaving of spl and spinlock calls, in any nesting, with
      context switches and interrupts: no count goes negative and no assertion
      about the counters fails; each CPU's counters are what its locks say;
      so are those of every thread that waits to be switched to; interrupts are
      off exactly while the current thread has a reason, but for the window of
      cpu_idle; and no lock is held by two CPUs. */
  lemma SplTheorem(s0: State, events: seq<Event>)
    requires Init(s0) && Possible(s0, events)
    ensures var s := Run(s0, events);
      !s.fault &&
      (forall c :: 0 <= c < |s.cpus| ==> CpuOk(s, c)) &&
      (forall t :: t in s.threads && !Current(s, t) ==> ParkedOk(s, t)) &&
      (forall c, d, l :: 0 <= c < |s.cpus| && 0 <= d < |s.cpus| && Has(s, c, l) && Has(s, d, l) ==> c == d)
  {
    InitInv(s0);
    RunKeepsInv(s0, events);
  }
}
