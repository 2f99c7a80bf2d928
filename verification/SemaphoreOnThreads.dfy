/** kern/thread/synch.c on kern/thread/thread.c: the semaphore's P and V run by the
    threads of ThreadSystem, over one of its wait channels. The scheduler does
    whatever else it likes; sem_lock is explicit because thread_switch releases it,
    once the sleeper is on the channel. */
module SemaphoreOnThreads {
  import opened Common
  import opened ThreadLists
  import opened TS = ThreadSystem
  import Sem = Semaphore

  /** `lock` is the CPU that holds sem_lock on its way into wchan_sleep. */
  datatype System = System(ts: TS.State, sem: Sem.State, lock: Option<nat>, channel: nat)

  datatype Event =
    | EnterP(c: nat)
    | Take(c: nat)
    | Block(c: nat)
    | Post(c: nat)
    | Sched(e: TS.Event)

  function Cur(s: System, c: nat): Tid
    requires c < |s.ts.cpus|
  {
    s.ts.cpus[c].cur
  }

  predicate AtTest(s: System, t: Tid) { Sem.At(s.sem, t) == Sem.Testing || Sem.At(s.sem, t) == Sem.Woken }

  /** CPU c runs its current thread and may start something. */
  predicate CanRun(s: System, c: nat) {
    Free(s.ts, c) && s.ts.cpus[c].pc == Running && s.lock != Some(c)
  }

  /** What the scheduler may do on its own: only P and V touch the channel, a CPU
      on its way into wchan_sleep goes there directly, and a thread inside P
      neither exits nor sleeps elsewhere. It may be preempted at any time. */
  predicate Allowed(s: System, e: TS.Event)
    requires TS.Enabled(s.ts, e)
  {
    if s.lock == Some(e.c) then e == SwitchLock(e.c, S_SLEEP, s.channel) || e == Place(e.c)
    else
      match e
      case WakeTake(_, w) => w != s.channel
      case SwitchLock(c, ns, w) =>
        ns == S_READY || (Sem.At(s.sem, Cur(s, c)) == Sem.Out && (ns == S_SLEEP ==> w != s.channel))
      case _ => true
  }

  /** The CPU is putting its current thread on the semaphore's channel. */
  predicate Sleeping(s: System, e: TS.Event) {
    e.Place? && e.c < |s.ts.cpus| && s.ts.cpus[e.c].pc == Locked(S_SLEEP, s.channel)
  }

  predicate Enabled(s: System, e: Event) {
    !s.sem.panicked &&
    match e
    case EnterP(c) => CanRun(s, c) && Sem.At(s.sem, Cur(s, c)) == Sem.Out
    case Take(c) => CanRun(s, c) && s.lock == None && AtTest(s, Cur(s, c)) && s.sem.count > 0
    case Block(c) =>
      CanRun(s, c) && s.lock == None && AtTest(s, Cur(s, c)) && s.sem.count == 0 && L(s.ts.lists, Woken(c)) == []
    case Post(c) => Free(s.ts, c) && s.lock == None
    case Sched(te) => TS.Enabled(s.ts, te) && Allowed(s, te)
  }

  ghost function Do(s: System, e: Event): System
    requires Enabled(s, e)
  {
    match e
    case EnterP(c) => s.(sem := s.sem.(pcs := s.sem.pcs[Cur(s, c) := Sem.Testing]))
    case Take(c) => s.(sem := Sem.Test(s.sem, Cur(s, c)))
    case Block(c) => s.(lock := Some(c))
    case Post(c) => DoPost(s, c)
    case Sched(te) => DoSched(s, te)
  }

  /** V: the count goes up and the head of the channel moves to the waker's list,
      from where thread_make_runnable will take it. */
  ghost function DoPost(s: System, c: nat): System {
    var s1 := s.(sem := Sem.V(s.sem));
    if s1.sem.panicked || L(s.ts.lists, Wait(s.channel)) == [] then s1
    else s1.(ts := DoWakeTake(s.ts, c, s.channel))
  }

  ghost function DoSched(s: System, e: TS.Event): System
    requires TS.Enabled(s.ts, e)
  {
    var s1 := s.(ts := TS.Do(s.ts, e));
    if Sleeping(s, e) then s1.(sem := Sem.Test(s.sem, Cur(s, e.c)), lock := None) else s1
  }

  ghost predicate Init(s: System) { TS.Init(s.ts) && Sem.Init(s.sem) && s.lock == None }

  // ------------------------------------------------------------ invariant

  /** The lists on which a thread inside P never is. */
  predicate Foreign(channel: nat, id: ListId) { id.Zombie? || id.Newborn? || (id.Wait? && id.channel != channel) }

  /** A CPU about to queue its current thread will not put it on such a list. */
  predicate HeadedWell(channel: nat, pc: Pc) {
    pc.Locked? ==> pc.newstate == S_READY || (pc.newstate == S_SLEEP && pc.channel == channel)
  }

  ghost predicate InPOk(s: System, t: Tid) {
    t in s.ts.threads &&
    (forall id :: Foreign(s.channel, id) ==> !On(s.ts.lists, id, t)) &&
    forall c :: 0 <= c < |s.ts.cpus| && Cur(s, c) == t ==> HeadedWell(s.channel, s.ts.cpus[c].pc)
  }

  /** The holder of sem_lock has found the count 0 and is about to sleep. */
  ghost predicate LockOk(s: System) {
    (s.lock.Some? ==> HolderOk(s, s.lock.value)) &&
    forall c :: 0 <= c < |s.ts.cpus| && s.ts.cpus[c].pc == Locked(S_SLEEP, s.channel) ==> s.lock == Some(c)
  }

  predicate HolderOk(s: System, c: nat) {
    c < |s.ts.cpus| && s.sem.count == 0 && AtTest(s, Cur(s, c)) && L(s.ts.lists, Woken(c)) == [] &&
    (s.ts.cpus[c].pc == Locked(S_SLEEP, s.channel) || (Free(s.ts, c) && s.ts.cpus[c].pc == Running))
  }

  ghost predicate Inv(s: System) {
    TS.Inv(s.ts) && Sem.Inv(s.sem) && L(s.ts.lists, Wait(s.channel)) == s.sem.queue && LockOk(s) &&
    forall t :: Sem.At(s.sem, t) != Sem.Out ==> InPOk(s, t)
  }

  // ------------------------------------- what a step of the scheduler changes

  /** Other CPUs stay where they are; CPU e.c comes to lock its run queue only by
      SwitchLock, and changes its current thread only by leaving that point. */
  ghost predicate CpusShape(s: TS.State, e: TS.Event, s': TS.State)
    requires e.c < |s.cpus|
  {
    |s'.cpus| == |s.cpus| &&
    (forall d :: 0 <= d < |s.cpus| && d != e.c ==>
      s'.cpus[d].pc == s.cpus[d].pc && s'.cpus[d].cur == s.cpus[d].cur && s'.cpus[d].mig == s.cpus[d].mig) &&
    (s'.cpus[e.c].pc.Locked? ==>
      e.SwitchLock? && s'.cpus[e.c].pc == Locked(e.newstate, e.channel) && s'.cpus[e.c].cur == s.cpus[e.c].cur)
  }

  /** Only thread_destroy makes a thread vanish: one from the zombie list. */
  ghost predicate ThreadsShape(s: TS.State, e: TS.Event, s': TS.State) {
    forall t :: t in s.threads && t !in s'.threads ==> e.Exorcise? && On(s.lists, Zombie(e.c), t)
  }

  /** The list that a step may add a thread to, other than run queues, victims and
      the waker's own list. */
  ghost predicate Target(s: TS.State, e: TS.Event, id: ListId, t: Tid)
    requires e.c < |s.cpus|
  {
    match e
    case Place(c) => s.cpus[c].pc.Locked? && s.cpus[c].cur == t && id == PlaceOf(s, c)
    case Fork(_, u) => t == u && id.Newborn?
    case _ => false
  }

  /** Wait channels, zombie lists and newborns gain members only there; a channel
      loses some only by WakeTake; other CPUs' wakers are left alone. */
  ghost predicate ListsShape(s: TS.State, e: TS.Event, s': TS.State)
    requires e.c < |s.cpus|
  {
    (forall id: ListId, t: Tid :: (id.Wait? || id.Zombie? || id.Newborn?) && On(s'.lists, id, t) ==>
      On(s.lists, id, t) || Target(s, e, id, t)) &&
    (forall w :: !(e.WakeTake? && e.channel == w) && !(e.Place? && PlacesOn(s, e.c, w)) ==>
      L(s'.lists, Wait(w)) == L(s.lists, Wait(w))) &&
    forall d :: d != e.c ==> L(s'.lists, Woken(d)) == L(s.lists, Woken(d))
  }

  predicate PlacesOn(s: TS.State, c: nat, w: nat)
    requires c < |s.cpus|
  {
    s.cpus[c].pc == Locked(S_SLEEP, w)
  }

  ghost predicate Shape(s: TS.State, e: TS.Event, s': TS.State) {
    e.c < |s.cpus| && CpusShape(s, e, s') && ThreadsShape(s, e, s') && ListsShape(s, e, s')
  }

  lemma SwitchShape(s: TS.State, e: TS.Event)
    requires TS.Enabled(s, e)
    requires e.SwitchLock? || e.SwitchNothing? || e.SetState? || e.PickNone? || e.PickNext? || e.Finish?
    ensures Shape(s, e, TS.Do(s, e))
    ensures e.SwitchLock? ==> TS.Do(s, e).lists == s.lists && TS.Do(s, e).cpus[e.c].pc.Locked?
  {}

  lemma PlaceShape(s: TS.State, e: TS.Event)
    requires TS.Enabled(s, e) && CurOk(s, e.c) && FlagsOk(s, e.c) && e.Place?
    ensures Shape(s, e, TS.Do(s, e))
  {
    PlaceLists(s, e);
  }

  lemma PlaceLists(s: TS.State, e: TS.Event)
    requires TS.Enabled(s, e) && CurOk(s, e.c) && FlagsOk(s, e.c) && e.Place?
    ensures ListsShape(s, e, TS.Do(s, e))
    ensures PlacesOn(s, e.c, s.cpus[e.c].pc.channel) ==>
      var w := s.cpus[e.c].pc.channel; L(TS.Do(s, e).lists, Wait(w)) == L(s.lists, Wait(w)) + [s.cpus[e.c].cur]
  {}

  lemma NewbornShape(s: TS.State, e: TS.Event)
    requires TS.Enabled(s, e) && e.MakeNewbornRunnable?
    ensures Shape(s, e, TS.Do(s, e))
  {}

  lemma WakeMakeShape(s: TS.State, e: TS.Event)
    requires TS.Enabled(s, e) && e.WakeMake?
    ensures Shape(s, e, TS.Do(s, e))
  {}

  lemma WakeShape(s: TS.State, e: TS.Event)
    requires TS.Enabled(s, e) && e.WakeTake?
    ensures Shape(s, e, TS.Do(s, e))
    ensures L(TS.Do(s, e).lists, Wait(e.channel)) == L(s.lists, Wait(e.channel))[1..]
  {}

  lemma OtherShape(s: TS.State, e: TS.Event)
    requires TS.Enabled(s, e)
    requires e.Exorcise? || e.ExorciseDone? || e.Interrupt? || e.TakeIpi? || e.Unidle?
    ensures Shape(s, e, TS.Do(s, e))
  {}

  lemma ForkShape(s: TS.State, e: TS.Event)
    requires TS.Enabled(s, e) && e.Fork?
    ensures Shape(s, e, TS.Do(s, e))
  {}

  lemma MigStartShape(s: TS.State, e: TS.Event)
    requires TS.Enabled(s, e) && FlagsOk(s, e.c)
    requires e.MigStart? || e.MigCount? || e.MigDecide? || e.MigLockOwn? || e.MigTakeDone?
    ensures Shape(s, e, TS.Do(s, e))
  {
    assert TS.Do(s, e).lists == s.lists;
  }

  lemma MigSendShape(s: TS.State, e: TS.Event)
    requires TS.Enabled(s, e) && FlagsOk(s, e.c) && e.MigSendOne?
    ensures Shape(s, e, TS.Do(s, e))
  {
    SendCpus(s, TS.Do(s, e), e.c);
    MigSendLists(s, e);
  }

  lemma MigSendLists(s: TS.State, e: TS.Event)
    requires TS.Enabled(s, e) && e.MigSendOne?
    ensures ListsShape(s, e, TS.Do(s, e))
  {
    var c, ls' := e.c, TS.Do(s, e).lists;
    if L(s.lists, Victims(c)) != [] {
      var t := Head(s.lists, Victims(c));
      QueueMove(s.lists, Victims(c), if t == s.cpus[c].cur then Victims(c) else Run(s.cpus[c].mig.i), t, ls');
    }
  }

  /** Moving a thread between run queues and victims leaves the other lists alone. */
  lemma QueueMove(ls: Lists, from: ListId, to: ListId, t: Tid, ls': Lists)
    requires (from.Run? || from.Victims?) && (to.Run? || to.Victims?)
    requires L(ls, from) != [] && ls' == AddTail(RemHead(ls, from), to, t)
    ensures forall id: ListId :: !id.Run? && !id.Victims? ==> L(ls', id) == L(ls, id)
  {}

  lemma MigEndShape(s: TS.State, e: TS.Event)
    requires TS.Enabled(s, e) && FlagsOk(s, e.c)
    requires e.MigNext? || e.MigSendDone? || e.MigReturn? || e.MigPutDone?
    ensures Shape(s, e, TS.Do(s, e))
  {
    assert TS.Do(s, e).lists == s.lists;
  }

  lemma MigMoveShape(s: TS.State, e: TS.Event)
    requires TS.Enabled(s, e) && FlagsOk(s, e.c) && (e.MigTakeOne? || e.MigPutOne?)
    ensures Shape(s, e, TS.Do(s, e))
  {}

  lemma StepShape(s: TS.State, e: TS.Event)
    requires TS.Inv(s) && TS.Enabled(s, e)
    ensures Shape(s, e, TS.Do(s, e))
  {
    assert CurOk(s, e.c) && FlagsOk(s, e.c);
    if e.Place? {
      PlaceShape(s, e);
    } else if e.MakeNewbornRunnable? {
      NewbornShape(s, e);
    } else if e.WakeMake? {
      WakeMakeShape(s, e);
    } else if e.WakeTake? {
      WakeShape(s, e);
    } else if e.MigSendOne? {
      MigSendShape(s, e);
    } else if e.MigTakeOne? || e.MigPutOne? {
      MigMoveShape(s, e);
    } else if e.MigNext? || e.MigSendDone? || e.MigReturn? || e.MigPutDone? {
      MigEndShape(s, e);
    } else if e.MigStart? || e.MigCount? || e.MigDecide? || e.MigLockOwn? || e.MigTakeDone? {
      MigStartShape(s, e);
    } else if e.Fork? {
      ForkShape(s, e);
    } else if e.Exorcise? || e.ExorciseDone? || e.Interrupt? || e.TakeIpi? || e.Unidle? {
      OtherShape(s, e);
    } else {
      SwitchShape(s, e);
    }
  }

  // ------------------------------------------------- steps keep the invariant

  /** A thread inside P stays where P can be, whatever the scheduler does. */
  lemma InPKept(s: System, e: TS.Event, ts': TS.State, t: Tid)
    requires TS.Enabled(s.ts, e) && Shape(s.ts, e, ts') && (e.SwitchLock? ==> Allowed(s, e))
    requires InPOk(s, t) && Sem.At(s.sem, t) != Sem.Out
    ensures InPOk(s.(ts := ts'), t)
  {
    forall id | Foreign(s.channel, id) ensures !On(ts'.lists, id, t) {
      assert !On(s.ts.lists, id, t);
      assert !Target(s.ts, e, id, t);
    }
    assert Foreign(s.channel, Zombie(e.c));
    forall c | 0 <= c < |ts'.cpus| && ts'.cpus[c].cur == t ensures HeadedWell(s.channel, ts'.cpus[c].pc) {
      if c != e.c { assert Cur(s, c) == t; }
    }
  }

  /** The holder of sem_lock is not disturbed by other CPUs. */
  lemma LockKept(s: System, e: TS.Event, ts': TS.State)
    requires LockOk(s) && TS.Enabled(s.ts, e) && Allowed(s, e) && Shape(s.ts, e, ts') && !Sleeping(s, e)
    requires e.SwitchLock? ==> ts'.lists == s.ts.lists && ts'.cpus[e.c].pc.Locked?
    ensures LockOk(s.(ts := ts'))
  {}

  lemma KeepsSched(s: System, e: TS.Event)
    requires Inv(s) && Enabled(s, Sched(e)) && !Sleeping(s, e)
    ensures Inv(DoSched(s, e))
  {
    var ts' := TS.Do(s.ts, e);
    TS.StepKeepsInv(s.ts, e);
    StepShape(s.ts, e);
    if e.SwitchLock? { SwitchShape(s.ts, e); }
    LockKept(s, e, ts');
    ChannelKept(s, e, ts');
    forall t | Sem.At(s.sem, t) != Sem.Out ensures InPOk(s.(ts := ts'), t) { InPKept(s, e, ts', t); }
  }

  lemma ChannelKept(s: System, e: TS.Event, ts': TS.State)
    requires LockOk(s) && TS.Enabled(s.ts, e) && Allowed(s, e) && Shape(s.ts, e, ts') && !Sleeping(s, e)
    ensures L(ts'.lists, Wait(s.channel)) == L(s.ts.lists, Wait(s.channel))
  {}

  /** The thread goes onto the channel, and only then is sem_lock released. */
  lemma KeepsSleeping(s: System, e: TS.Event)
    requires Inv(s) && Enabled(s, Sched(e)) && Sleeping(s, e)
    ensures Inv(DoSched(s, e))
  {
    var t, ts', s' := Cur(s, e.c), TS.Do(s.ts, e), DoSched(s, e);
    assert s.lock == Some(e.c) && HolderOk(s, e.c);
    TS.StepKeepsInv(s.ts, e);
    assert CurOk(s.ts, e.c) && FlagsOk(s.ts, e.c);
    PlaceShape(s.ts, e);
    PlaceLists(s.ts, e);
    Sem.TestKeeps(s.sem, t);
    forall x | Sem.At(s'.sem, x) != Sem.Out ensures InPOk(s', x) {
      assert Sem.At(s.sem, x) != Sem.Out;
      InPKept(s, e, ts', x);
      SameInP(s.(ts := ts'), s', x);
    }
    LockReleased(s, e, s');
  }

  lemma LockReleased(s: System, e: TS.Event, s': System)
    requires LockOk(s) && s.lock == Some(e.c) && e.Place? && s'.lock == None && s'.channel == s.channel
    requires Shape(s.ts, e, s'.ts)
    ensures LockOk(s')
  {}

  lemma SameInP(s: System, s': System, t: Tid)
    requires InPOk(s, t) && s'.ts == s.ts && s'.channel == s.channel
    ensures InPOk(s', t)
  {}

  lemma KeepsPost(s: System, c: nat)
    requires Inv(s) && Enabled(s, Post(c))
    ensures Inv(DoPost(s, c))
  {
    if s.sem.count + 1 == Sem.UINT_LIMIT {
      forall t | Sem.At(s.sem, t) != Sem.Out ensures InPOk(DoPost(s, c), t) { SameInP(s, DoPost(s, c), t); }
    } else {
      Sem.WakeOneKeeps(s.sem.(count := s.sem.count + 1, vs := s.sem.vs + 1));
      if s.sem.queue == [] {
        forall t | Sem.At(s.sem, t) != Sem.Out ensures InPOk(DoPost(s, c), t) { SameInP(s, DoPost(s, c), t); }
      } else {
        KeepsWake(s, c);
      }
    }
  }

  lemma KeepsWake(s: System, c: nat)
    requires Inv(s) && Enabled(s, Post(c)) && s.sem.queue != [] && s.sem.count + 1 != Sem.UINT_LIMIT
    requires Sem.Inv(Sem.V(s.sem))
    ensures Inv(DoPost(s, c))
  {
    var e, s' := WakeTake(c, s.channel), DoPost(s, c);
    TS.StepKeepsInv(s.ts, e);
    WakeShape(s.ts, e);
    forall t | Sem.At(s'.sem, t) != Sem.Out ensures InPOk(s', t) {
      assert Sem.At(s.sem, s.sem.queue[0]) == Sem.Asleep;
      InPKept(s, e, s'.ts, t);
      SameInP(s.(ts := s'.ts), s', t);
    }
  }

  lemma KeepsEnterP(s: System, c: nat)
    requires Inv(s) && Enabled(s, EnterP(c))
    ensures Inv(Do(s, EnterP(c)))
  {
    var s', t := Do(s, EnterP(c)), Cur(s, c);
    Sem.StepKeepsInv(s.sem, Sem.CallP(t));
    assert CurOk(s.ts, c);
    if s.lock.Some? { assert CurOk(s.ts, s.lock.value); }
    forall x | Sem.At(s'.sem, x) != Sem.Out ensures InPOk(s', x) {
      if x == t { CurrentInP(s, c); }
      SameInP(s, s', x);
    }
  }

  /** A thread that runs is on no list. */
  lemma CurrentInP(s: System, c: nat)
    requires TS.Inv(s.ts) && CanRun(s, c)
    ensures InPOk(s, Cur(s, c))
  {
    assert CurOk(s.ts, c);
    assert !Somewhere(s.ts.lists, Cur(s, c));
    forall d | 0 <= d < |s.ts.cpus| && Cur(s, d) == Cur(s, c) ensures HeadedWell(s.channel, s.ts.cpus[d].pc) {
      assert CurOk(s.ts, d);
    }
  }

  lemma KeepsTest(s: System, e: Event)
    requires Inv(s) && Enabled(s, e) && (e.Take? || e.Block?)
    ensures Inv(Do(s, e))
  {
    var s' := Do(s, e);
    if e.Take? { Sem.TestKeeps(s.sem, Cur(s, e.c)); }
    forall x | Sem.At(s'.sem, x) != Sem.Out ensures InPOk(s', x) { SameInP(s, s', x); }
  }

  lemma StepKeepsInv(s: System, e: Event)
    requires Inv(s) && Enabled(s, e)
    ensures Inv(Do(s, e)) && Do(s, e).channel == s.channel
  {
    match e {
      case EnterP(c) => KeepsEnterP(s, c);
      case Take(_) => KeepsTest(s, e);
      case Block(_) => KeepsTest(s, e);
      case Post(c) => KeepsPost(s, c);
      case Sched(te) => if Sleeping(s, te) { KeepsSleeping(s, te); } else { KeepsSched(s, te); }
    }
  }

  /** The call of the semaphore that a step makes or completes, if any. */
  function SemCall(s: System, e: Event): Option<Sem.Event>
    requires Enabled(s, e)
  {
    match e
    case EnterP(c) => Some(Sem.CallP(Cur(s, c)))
    case Take(c) => Some(Sem.TestP(Cur(s, c)))
    case Block(_) => None
    case Post(c) => Some(Sem.DoV(Cur(s, c)))
    case Sched(te) => if Sleeping(s, te) then Some(Sem.TestP(Cur(s, te.c))) else None
  }

  /** The step of the scheduler that is part of it, if any. */
  function SchedStep(s: System, e: Event): Option<TS.Event>
    requires Enabled(s, e)
  {
    match e
    case Post(c) =>
      if s.sem.count + 1 == Sem.UINT_LIMIT || L(s.ts.lists, Wait(s.channel)) == [] then None else Some(WakeTake(c, s.channel))
    case Sched(te) => Some(te)
    case _ => None
  }

  /** Seen from either side, the composition does what that side does: the semaphore
      goes through its own steps, P at the calls of its threads, and the scheduler
      through its own. */
  lemma RefinesBoth(s: System, e: Event)
    requires Inv(s) && Enabled(s, e)
    ensures match SemCall(s, e)
            case None => Do(s, e).sem == s.sem
            case Some(se) => (se.DoV? || Sem.Enabled(s.sem, se)) &&
                             Do(s, e).sem == if se.DoV? then Sem.V(s.sem) else Sem.Do(s.sem, se)
    ensures match SchedStep(s, e)
            case None => Do(s, e).ts == s.ts
            case Some(te) => TS.Enabled(s.ts, te) && Do(s, e).ts == TS.Do(s.ts, te)
    ensures Do(s, e).lock.Some? <==> e.Block? || (s.lock.Some? && !(e.Sched? && Sleeping(s, e.e)))
  {
    if e.Sched? && Sleeping(s, e.e) { assert s.lock == Some(e.e.c) && HolderOk(s, e.e.c); }
  }

  // ------------------------------------------------------------ whole runs

  ghost predicate Reaches(s: System, events: seq<Event>, s': System)
    decreases |events|
  {
    if events == [] then s' == s
    else Enabled(s, events[0]) && Reaches(Do(s, events[0]), events[1..], s')
  }

  lemma {:induction false} RunKeepsInv(s: System, events: seq<Event>, s': System)
    requires Inv(s) && Reaches(s, events, s')
    ensures Inv(s')
    decreases |events|
  {
    if events != [] {
      StepKeepsInv(s, events[0]);
      RunKeepsInv(Do(s, events[0]), events[1..], s');
    }
  }

  lemma InitInv(s: System)
    requires Init(s)
    ensures Inv(s)
  {
    TS.InitInv(s.ts);
  }

  /** The scheduler will run t without anyone else's help: it is running, or on a
      waker's list or among the victims of a migration, from where it goes to a run
      queue, or on the run queue of a CPU that is up or has an interrupt coming. */
  ghost predicate OnItsWay(ts: TS.State, t: Tid) {
    (exists c :: 0 <= c < |ts.cpus| && ts.cpus[c].cur == t && !Parked(ts.cpus[c].pc)) ||
    (exists c :: 0 <= c < |ts.cpus| && (On(ts.lists, Woken(c), t) || On(ts.lists, Victims(c), t))) ||
    exists c :: 0 <= c < |ts.cpus| && On(ts.lists, Run(c), t) && (ts.cpus[c].pc == Asleep ==> ts.cpus[c].ipi)
  }

  lemma WokenIsOnItsWay(s: System, t: Tid)
    requires Inv(s) && AtTest(s, t)
    ensures OnItsWay(s.ts, t)
  {
    assert InPOk(s, t);
    if Somewhere(s.ts.lists, t) {
      var id :| On(s.ts.lists, id, t);
      assert MemberOk(s.ts, id, t) && !Foreign(s.channel, id);
      assert id != Wait(s.channel);
      if id.Run? { assert FlagsOk(s.ts, id.cpu); }
    } else {
      assert CurOk(s.ts, s.ts.threads[t].cpu);
    }
  }

  /** No wakeup is lost between the semaphore and the scheduler. In every reachable
      state of threads, CPUs and semaphore: the channel holds exactly the threads
      asleep in P, in the order they went to sleep; the count is the initial one
      plus the Vs minus the Ps; while the channel is not empty there are at least as
      many woken threads as units to be had; and every woken thread, like every
      other that is about to test the count, is on its way to run. */
  lemma NoLostWakeup(s0: System, events: seq<Event>, s: System)
    requires Init(s0) && Reaches(s0, events, s)
    ensures L(s.ts.lists, Wait(s.channel)) == s.sem.queue
    ensures forall t :: On(s.ts.lists, Wait(s.channel), t) <==> Sem.At(s.sem, t) == Sem.Asleep
    ensures s.sem.count + s.sem.ps == s.sem.initial + s.sem.vs
    ensures L(s.ts.lists, Wait(s.channel)) != [] ==> s.sem.count <= |Sem.Those(s.sem.pcs, Sem.Woken)|
    ensures forall t :: AtTest(s, t) ==> OnItsWay(s.ts, t)
  {
    InitInv(s0);
    RunKeepsInv(s0, events, s);
    forall t | AtTest(s, t) ensures OnItsWay(s.ts, t) { WokenIsOnItsWay(s, t); }
  }

  /** Whoever goes to sleep holds sem_lock until it is on the channel (the
      assertion in wchan_sleep), and the count is 0 until then. */
  lemma SleepsUnderLock(s0: System, events: seq<Event>, s: System, c: nat)
    requires Init(s0) && Reaches(s0, events, s)
    requires c < |s.ts.cpus| && s.ts.cpus[c].pc == Locked(S_SLEEP, s.channel)
    ensures s.lock == Some(c) && s.sem.count == 0 && AtTest(s, Cur(s, c))
    ensures forall d :: 0 <= d < |s.ts.cpus| && s.ts.cpus[d].pc == Locked(S_SLEEP, s.channel) ==> d == c
  {
    InitInv(s0);
    RunKeepsInv(s0, events, s);
  }
}
