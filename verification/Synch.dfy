/** kern/thread/synch.c, the semaphore: P and V over a wait channel. A step is one
    section protected by sem_lock; wchan_sleep leaves the section and puts the
    thread on the channel in one go. */
module Semaphore {
  type Tid = nat

  const UINT_LIMIT: nat := 0x1_0000_0000

  /** Where a thread is in P: not in it; about to take sem_lock and test the
      count; on the wait channel; taken off it but not yet back at the test. */
  datatype Pc = Out | Testing | Asleep | Woken

  datatype State = State(count: nat, queue: seq<Tid>, pcs: map<Tid, Pc>,
                         initial: nat, ps: nat, vs: nat, panicked: bool)

  datatype Event = CallP(t: Tid) | TestP(t: Tid) | DoV(t: Tid)

  function At(s: State, t: Tid): Pc { if t in s.pcs then s.pcs[t] else Out }

  predicate Enabled(s: State, e: Event) {
    !s.panicked &&
    match e
    case CallP(t) => At(s, t) == Out
    case TestP(t) => At(s, t) == Testing || At(s, t) == Woken
    case DoV(t) => At(s, t) == Out
  }

  /** The test of P succeeds or puts the thread (back) to sleep. */
  function Test(s: State, t: Tid): State {
    if s.count == 0
    then s.(queue := s.queue + [t], pcs := s.pcs[t := Asleep])
    else s.(count := s.count - 1, ps := s.ps + 1, pcs := s.pcs[t := Out])
  }

  /** wchan_wakeone. */
  function WakeOne(s: State): State {
    if s.queue == [] then s else s.(queue := s.queue[1..], pcs := s.pcs[s.queue[0] := Woken])
  }

  /** V; incrementing past the largest unsigned makes its KASSERT fail. */
  function V(s: State): State {
    if s.count + 1 == UINT_LIMIT then s.(panicked := true)
    else WakeOne(s.(count := s.count + 1, vs := s.vs + 1))
  }

  function Do(s: State, e: Event): State
    requires Enabled(s, e)
  {
    match e
    case CallP(t) => s.(pcs := s.pcs[t := Testing])
    case TestP(t) => Test(s, t)
    case DoV(_) => V(s)
  }

  ghost predicate Init(s: State) {
    s == State(s.initial, [], map[], s.initial, 0, 0, false) && s.initial < UINT_LIMIT
  }

  /** Threads at program point p. */
  ghost function Those(pcs: map<Tid, Pc>, p: Pc): set<Tid> {
    set t | t in pcs && pcs[t] == p
  }

  ghost predicate Inv(s: State) {
    s.count + s.ps == s.initial + s.vs &&
    s.count < UINT_LIMIT &&
    (forall i, j :: 0 <= i < j < |s.queue| ==> s.queue[i] != s.queue[j]) &&
    (forall t :: t in s.queue <==> At(s, t) == Asleep) &&
    (s.queue != [] ==> s.count <= |Those(s.pcs, Woken)|)
  }

  /** Moving one thread to another point changes the sets by that thread only. */
  lemma Shift(pcs: map<Tid, Pc>, t: Tid, p: Pc)
    ensures Those(pcs[t := p], Woken)
            == if p == Woken then Those(pcs, Woken) + {t} else Those(pcs, Woken) - {t}
  {}

  lemma WakeOneKeeps(s: State)
    requires s.count > 0 && s.count < UINT_LIMIT && s.count + s.ps == s.initial + s.vs
    requires forall i, j :: 0 <= i < j < |s.queue| ==> s.queue[i] != s.queue[j]
    requires forall t :: t in s.queue <==> At(s, t) == Asleep
    requires s.queue != [] ==> s.count - 1 <= |Those(s.pcs, Woken)|
    ensures Inv(WakeOne(s))
  {
    if s.queue != [] {
      var t, s' := s.queue[0], WakeOne(s);
      Shift(s.pcs, t, Woken);
      assert At(s, t) == Asleep;
      assert s.queue == [t] + s.queue[1..];
      assert t !in s'.queue;
      forall x ensures x in s'.queue <==> At(s', x) == Asleep {
        assert x in s.queue <==> x == t || x in s'.queue;
      }
    }
  }

  lemma TestKeeps(s: State, t: Tid)
    requires Inv(s) && (At(s, t) == Testing || At(s, t) == Woken)
    ensures Inv(Test(s, t))
  {
    Shift(s.pcs, t, if s.count == 0 then Asleep else Out);
    var s', w := Test(s, t), Those(s.pcs, Woken);
    assert t !in s.queue;
    assert At(s, t) == Woken <==> t in w;
    assert |w - {t}| >= |w| - 1;
  }

  lemma StepKeepsInv(s: State, e: Event)
    requires Inv(s) && Enabled(s, e)
    ensures Inv(Do(s, e))
  {
    match e {
      case CallP(t) =>
        Shift(s.pcs, t, Testing);
        assert t !in Those(s.pcs, Woken);
        assert Those(s.pcs, Woken) - {t} == Those(s.pcs, Woken);
      case TestP(t) => TestKeeps(s, t);
      case DoV(_) =>
        if s.count + 1 != UINT_LIMIT { WakeOneKeeps(s.(count := s.count + 1, vs := s.vs + 1)); }
    }
  }

  /** The events can happen one after the other, from s. */
  ghost predicate Possible(s: State, events: seq<Event>)
    decreases |events|
  {
    events == [] || (Enabled(s, events[0]) && Possible(Do(s, events[0]), events[1..]))
  }

  ghost function Run(s: State, events: seq<Event>): State
    requires Possible(s, events)
    decreases |events|
  {
    if events == [] then s else Run(Do(s, events[0]), events[1..])
  }

  /** How many calls of P and of V the run completes. */
  ghost function Completed(s: State, events: seq<Event>): (nat, nat)
    requires Possible(s, events)
    decreases |events|
  {
    if events == [] then (0, 0)
    else
      var e, s1 := events[0], Do(s, events[0]);
      var rest := Completed(s1, events[1..]);
      (rest.0 + (if e.TestP? && At(s1, e.t) == Out then 1 else 0),
       rest.1 + (if e.DoV? && !s1.panicked then 1 else 0))
  }

  lemma {:induction false} RunKeepsInv(s: State, events: seq<Event>)
    requires Inv(s) && Possible(s, events)
    ensures Inv(Run(s, events)) && Run(s, events).initial == s.initial
    ensures Run(s, events).ps == s.ps + Completed(s, events).0
    ensures Run(s, events).vs == s.vs + Completed(s, events).1
    decreases |events|
  {
    if events != [] {
      StepKeepsInv(s, events[0]);
      RunKeepsInv(Do(s, events[0]), events[1..]);
    }
  }

  /** The flow of P, for any thread t and any step: it enters P by calling it, and
      leaves it only by a test that finds a unit and takes it; a test that finds
      none puts it at the end of the channel, and only a V takes it off again, if it
      is the first there. */
  lemma StepFlow(s: State, e: Event, t: Tid)
    requires Inv(s) && Enabled(s, e)
    ensures var p, p', s' := At(s, t), At(Do(s, e), t), Do(s, e);
      p' == p || (e == CallP(t) && p == Out && p' == Testing) ||
      (e == TestP(t) && p' == Out && s.count > 0 && s'.count == s.count - 1 && s'.queue == s.queue) ||
      (e == TestP(t) && p' == Asleep && s.count == 0 == s'.count && s'.queue == s.queue + [t]) ||
      (e.DoV? && p == Asleep && p' == Woken && s'.count == s.count + 1 && s.queue == [t] + s'.queue)
    ensures e == CallP(t) || e == TestP(t) ==> At(Do(s, e), t) != At(s, t)
    ensures e.DoV? && !Do(s, e).panicked ==> Do(s, e).count == s.count + 1
  {
    if e.DoV? && s.queue != [] { assert s.queue == [s.queue[0]] + s.queue[1..]; }
    if e.TestP? { assert e.t !in s.queue; }
  }

  /** A thread that has called P comes out of it only with a unit: one of the steps
      is its own test, in a state with a positive count, which it lowers by one. */
  lemma {:induction false} ReturnTakesUnit(s: State, events: seq<Event>, t: Tid) returns (before: State, i: nat)
    requires Inv(s) && Possible(s, events) && At(s, t) != Out && At(Run(s, events), t) == Out
    ensures i < |events| && events[i] == TestP(t) && Possible(s, events[..i]) && before == Run(s, events[..i])
    ensures Enabled(before, TestP(t)) && before.count > 0 && Do(before, TestP(t)).count == before.count - 1
    decreases |events|
  {
    var s1 := Do(s, events[0]);
    StepFlow(s, events[0], t);
    StepKeepsInv(s, events[0]);
    if At(s1, t) == Out {
      before, i := s, 0;
    } else {
      before, i := ReturnTakesUnit(s1, events[1..], t);
      assert events[1..][..i] == events[..i + 1][1..];
      i := i + 1;
    }
  }

  /** Over every interleaving: the count is the initial one plus the completed
      Vs minus the completed Ps; and no wakeup is lost: while some thread sleeps,
      there are at least as many woken threads on their way back to the test as
      there are units to be had. */
  lemma SemaphoreTheorem(s0: State, events: seq<Event>)
    requires Init(s0) && Possible(s0, events)
    ensures var s, n := Run(s0, events), Completed(s0, events);
      s.count == s0.initial + n.1 - n.0 &&
      (s.queue != [] ==> s.count <= |Those(s.pcs, Woken)|) &&
      (forall t :: t in s.queue <==> At(s, t) == Asleep)
  {
    assert Inv(s0);
    RunKeepsInv(s0, events);
  }
}

/** kern/thread/synch.c, the lock built on a binary semaphore and the condition
    variable used with it. Steps are sections between acquiring and releasing a
    spinlock; lk_lock and cv_lock are explicit because they stay held across the
    nested calls of V and lock_release. */
module LockAndCv {
  import opened Common
  import Sem = Semaphore

  type Tid = Sem.Tid

  /** Where a thread is.
      - Outside: in no operation, not the owner
      - Acquiring: inside P of lock_acquire
      - Got: past P, lk_owner not yet set
      - Held: the owner, in no operation
      - Cleared(w): lk_owner cleared, lk_lock held, V still to come
      - Posted(w): V done, lk_lock still held
      - WaitLocked, WaitReleased: in cv_wait with cv_lock, before and after its
        call of lock_release (w above says that the release is inside cv_wait)
      - WaitAsleep: on the cv's channel
      - WaitWoken: taken off it, cv_lock not yet retaken
      - Signalling(all): in cv_signal or cv_broadcast, holding cv_lock */
  datatype Pc =
    | Outside
    | Acquiring
    | Got
    | Held
    | Cleared(w: bool)
    | Posted(w: bool)
    | WaitLocked
    | WaitReleased
    | WaitAsleep
    | WaitWoken
    | Signalling(all: bool)

  /** `halted` records that a caller broke the rules and the KASSERT at the start
      of an operation stopped the system; `fault` that an assertion about the
      lock's own state failed. */
  datatype State = State(sem: Sem.State, owner: Option<Tid>, lkLock: Option<Tid>, cvLock: Option<Tid>,
                         cvQueue: seq<Tid>, pcs: map<Tid, Pc>, halted: bool, fault: bool)

  datatype Event =
    | CallAcquire(t: Tid)
    | TestSem(t: Tid)
    | TakeOwnership(t: Tid)
    | Release(t: Tid)
    | Post(t: Tid)
    | UnlockLk(t: Tid)
    | CallWait(t: Tid)
    | Sleep(t: Tid)
    | Rewake(t: Tid)
    | CallSignal(t: Tid, all: bool)
    | Wake(t: Tid)

  function At(s: State, t: Tid): Pc { if t in s.pcs then s.pcs[t] else Outside }

  function Goto(s: State, t: Tid, p: Pc): State { s.(pcs := s.pcs[t := p]) }

  /** Between operations: here a thread may call any of them. */
  predicate Idle(p: Pc) { p == Outside || p == Held }

  predicate Enabled(s: State, e: Event) {
    !s.halted && !s.fault && !s.sem.panicked &&
    var p := At(s, e.t);
    match e
    case CallAcquire(_) => Idle(p) && s.lkLock == None
    case TestSem(t) => p == Acquiring && Sem.Enabled(s.sem, Sem.TestP(t))
    case TakeOwnership(_) => p == Got && s.lkLock == None
    case Release(_) => (Idle(p) || p == WaitLocked) && s.lkLock == None
    case Post(t) => p.Cleared? && Sem.Enabled(s.sem, Sem.DoV(t))
    case UnlockLk(_) => p.Posted?
    case CallWait(_) => Idle(p) && s.lkLock == None && s.cvLock == None
    case Sleep(_) => p == WaitReleased
    case Rewake(_) => p == WaitWoken && s.cvLock == None && s.lkLock == None
    case CallSignal(_, _) => Idle(p) && s.lkLock == None && s.cvLock == None
    case Wake(_) => p.Signalling?
  }

  function Do(s: State, e: Event): State
    requires Enabled(s, e)
  {
    match e
    case CallAcquire(t) => EnterAcquire(s, t)
    case TestSem(t) => DoTestSem(s, t)
    case TakeOwnership(t) => Goto(s.(owner := Some(t), fault := s.owner != None), t, Held)
    case Release(t) => DoRelease(s, t)
    case Post(t) => Goto(s.(sem := Sem.V(s.sem)), t, Posted(At(s, t).w))
    case UnlockLk(t) => Goto(s.(lkLock := None), t, if At(s, t).w then WaitReleased else Outside)
    case CallWait(t) => if s.owner != Some(t) then s.(halted := true) else Goto(s.(cvLock := Some(t)), t, WaitLocked)
    case Sleep(t) => Goto(s.(cvLock := None, cvQueue := s.cvQueue + [t]), t, WaitAsleep)
    case Rewake(t) => EnterAcquire(s, t)
    case CallSignal(t, all) =>
      if s.owner != Some(t) then s.(halted := true) else Goto(s.(cvLock := Some(t)), t, Signalling(all))
    case Wake(t) => DoWake(s, t)
  }

  /** lock_acquire up to the call of P. */
  function EnterAcquire(s: State, t: Tid): State {
    if s.owner == Some(t) && At(s, t) != WaitWoken then s.(halted := true)
    else if s.owner == Some(t) || !Sem.Enabled(s.sem, Sem.CallP(t)) then s.(fault := true)
    else Goto(s.(sem := Sem.Do(s.sem, Sem.CallP(t))), t, Acquiring)
  }

  function DoTestSem(s: State, t: Tid): State {
    var sem' := Sem.Test(s.sem, t);
    Goto(s.(sem := sem'), t, if Sem.At(sem', t) == Sem.Out then Got else Acquiring)
  }

  /** lock_release up to the call of V, from a user or from within cv_wait. */
  function DoRelease(s: State, t: Tid): State {
    if s.owner != Some(t) then if At(s, t) == WaitLocked then s.(fault := true) else s.(halted := true)
    else Goto(s.(owner := None, lkLock := Some(t)), t, Cleared(At(s, t) == WaitLocked))
  }

  /** wchan_wakeone or wchan_wakeall, then the release of cv_lock. */
  function DoWake(s: State, t: Tid): State
    requires At(s, t).Signalling?
  {
    var s1 := s.(cvLock := None);
    if At(s, t).all then Goto(s1.(cvQueue := [], pcs := Awaken(s.pcs, s.cvQueue)), t, Held)
    else if s.cvQueue == [] then Goto(s1, t, Held)
    else Goto(s1.(cvQueue := s.cvQueue[1..], pcs := Awaken(s.pcs, [s.cvQueue[0]])), t, Held)
  }

  function Awaken(pcs: map<Tid, Pc>, q: seq<Tid>): map<Tid, Pc> {
    map t | t in pcs.Keys + (set x | x in q) :: if t in q then WaitWoken else pcs[t]
  }

  ghost predicate Init(s: State) {
    Sem.Init(s.sem) && s.sem.initial == 1 &&
    s == State(s.sem, None, None, None, [], map[], false, false)
  }

  // ------------------------------------------------------------ invariant

  predicate IsOwner(p: Pc) { p == Held || p == WaitLocked || p.Signalling? }
  predicate HasLk(p: Pc) { p.Cleared? || p.Posted? }
  predicate HasCv(p: Pc) {
    p == WaitLocked || p == WaitReleased || p.Signalling? || (p.Cleared? && p.w) || (p.Posted? && p.w)
  }

  /** The thread accounts for the semaphore's one unit. */
  predicate HasToken(p: Pc) { p == Got || IsOwner(p) || p.Cleared? }

  ghost predicate SemAgrees(s: State) {
    Sem.Inv(s.sem) && s.sem.initial == 1 && !s.sem.panicked &&
    (forall t :: At(s, t) == Acquiring <==> Sem.At(s.sem, t) != Sem.Out) &&
    s.sem.count <= 1 &&
    (s.sem.count == 1 ==> forall t :: !HasToken(At(s, t))) &&
    (s.sem.count == 0 ==> exists t :: HasToken(At(s, t))) &&
    (forall t, u :: HasToken(At(s, t)) && HasToken(At(s, u)) ==> t == u)
  }

  ghost predicate LocksAgree(s: State) {
    (forall t: Tid :: s.owner == Some(t) <==> IsOwner(At(s, t))) &&
    (forall t: Tid :: s.lkLock == Some(t) <==> HasLk(At(s, t))) &&
    (forall t: Tid :: s.cvLock == Some(t) <==> HasCv(At(s, t)))
  }

  ghost predicate QueueAgrees(s: State) {
    (forall i, j :: 0 <= i < j < |s.cvQueue| ==> s.cvQueue[i] != s.cvQueue[j]) &&
    (forall t :: t in s.cvQueue <==> At(s, t) == WaitAsleep)
  }

  ghost predicate Inv(s: State) {
    !s.fault && SemAgrees(s) && LocksAgree(s) && QueueAgrees(s)
  }

  lemma KeepsEnterAcquire(s: State, t: Tid)
    requires Inv(s) && (Idle(At(s, t)) || At(s, t) == WaitWoken)
    ensures Inv(EnterAcquire(s, t))
  {
    var s' := EnterAcquire(s, t);
    if s.owner != Some(t) {
      Sem.StepKeepsInv(s.sem, Sem.CallP(t));
      assert forall u :: u != t ==> At(s', u) == At(s, u);
      TokensStay(s, s', t);
    }
  }

  /** A thread that has no token before or after does not disturb the count. */
  lemma TokensStay(s: State, s': State, t: Tid)
    requires SemAgrees(s) && s'.sem.count == s.sem.count
    requires HasToken(At(s, t)) == HasToken(At(s', t))
    requires forall u :: u != t ==> At(s', u) == At(s, u)
    ensures s'.sem.count == 1 ==> forall u :: !HasToken(At(s', u))
    ensures s'.sem.count == 0 ==> exists u :: HasToken(At(s', u))
    ensures forall u, v :: HasToken(At(s', u)) && HasToken(At(s', v)) ==> u == v
  {}

  lemma KeepsTestSem(s: State, t: Tid)
    requires Inv(s) && At(s, t) == Acquiring && Sem.Enabled(s.sem, Sem.TestP(t))
    ensures Inv(DoTestSem(s, t))
  {
    var s' := DoTestSem(s, t);
    Sem.TestKeeps(s.sem, t);
    assert forall u :: u != t ==> At(s', u) == At(s, u);
    if s.sem.count == 0 {
      TokensStay(s, s', t);
    } else {
      assert HasToken(At(s', t));
    }
  }

  lemma KeepsPost(s: State, t: Tid)
    requires Inv(s) && At(s, t).Cleared? && Enabled(s, Post(t))
    ensures Inv(Do(s, Post(t)))
  {
    var s' := Do(s, Post(t));
    assert HasToken(At(s, t));
    assert s.sem.count == 0;
    Sem.StepKeepsInv(s.sem, Sem.DoV(t));
    assert forall u :: u != t ==> At(s', u) == At(s, u);
    forall u ensures !HasToken(At(s', u)) {}
  }

  lemma KeepsSimple(s: State, e: Event)
    requires Inv(s) && Enabled(s, e)
    requires e.TakeOwnership? || e.Release? || e.UnlockLk?
    ensures Inv(Do(s, e))
  {
    var s', t := Do(s, e), e.t;
    assert forall u :: u != t ==> At(s', u) == At(s, u);
    TokensStay(s, s', t);
  }

  lemma KeepsWaiting(s: State, e: Event)
    requires Inv(s) && Enabled(s, e)
    requires e.CallWait? || e.Sleep? || e.CallSignal?
    ensures Inv(Do(s, e))
  {
    var s', t := Do(s, e), e.t;
    assert forall u :: u != t ==> At(s', u) == At(s, u);
    TokensStay(s, s', t);
  }

  /** How many of the sleepers a signaller wakes: all, or the first if any. */
  function WakeCount(s: State, t: Tid): nat
    requires At(s, t).Signalling?
  {
    if At(s, t).all then |s.cvQueue| else if s.cvQueue == [] then 0 else 1
  }

  /** What DoWake does: the first WakeCount sleepers, and no one else, are woken. */
  lemma WakeShape(s: State, t: Tid)
    requires At(s, t).Signalling? && t !in s.cvQueue
    ensures var s', n := DoWake(s, t), WakeCount(s, t);
      s' == s.(cvLock := None, cvQueue := s.cvQueue[n..], pcs := s'.pcs) &&
      forall u :: At(s', u) == if u == t then Held else if u in s.cvQueue[..n] then WaitWoken else At(s, u)
  {}

  lemma KeepsWake(s: State, t: Tid)
    requires Inv(s) && At(s, t).Signalling?
    ensures Inv(DoWake(s, t))
  {
    WakeShape(s, t);
    WokenLeave(s, DoWake(s, t), t, WakeCount(s, t));
  }

  lemma WokenLeave(s: State, s': State, t: Tid, n: nat)
    requires Inv(s) && At(s, t).Signalling? && n <= |s.cvQueue|
    requires s' == s.(cvLock := None, cvQueue := s.cvQueue[n..], pcs := s'.pcs)
    requires forall u :: At(s', u) == if u == t then Held else if u in s.cvQueue[..n] then WaitWoken else At(s, u)
    ensures Inv(s')
  {
    DistinctHalves(s.cvQueue, n);
    assert forall u :: u in s.cvQueue[..n] ==> u in s.cvQueue && At(s, u) == WaitAsleep;
    SamePhase(s, s');
    WokenLocks(s, s', t);
  }

  lemma WokenLocks(s: State, s': State, t: Tid)
    requires LocksAgree(s) && At(s, t).Signalling? && At(s', t) == Held
    requires s'.owner == s.owner && s'.lkLock == s.lkLock && s'.cvLock == None
    requires forall u :: u != t ==> At(s', u) == At(s, u) || (At(s, u) == WaitAsleep && At(s', u) == WaitWoken)
    ensures LocksAgree(s')
  {}

  lemma DistinctHalves(q: seq<Tid>, n: nat)
    requires n <= |q| && forall i, j :: 0 <= i < j < |q| ==> q[i] != q[j]
    ensures forall u :: u in q[n..] <==> u in q && u !in q[..n]
  {}

  /** Steps that move no thread into or out of the lock's protocol. */
  lemma SamePhase(s: State, s': State)
    requires SemAgrees(s) && s'.sem == s.sem
    requires forall u :: HasToken(At(s', u)) == HasToken(At(s, u))
    requires forall u :: At(s', u) == Acquiring <==> At(s, u) == Acquiring
    ensures SemAgrees(s')
  {}

  lemma StepKeepsInv(s: State, e: Event)
    requires Inv(s) && Enabled(s, e)
    ensures Inv(Do(s, e))
    ensures forall t :: At(Do(s, e), t) == At(s, t) || Edge(At(s, t), At(Do(s, e), t))
  {
    forall t ensures At(Do(s, e), t) == At(s, t) || Edge(At(s, t), At(Do(s, e), t)) { StepFlow(s, e, t); }
    match e {
      case CallAcquire(t) => KeepsEnterAcquire(s, t);
      case TestSem(t) => KeepsTestSem(s, t);
      case Post(t) => KeepsPost(s, t);
      case Rewake(t) => KeepsEnterAcquire(s, t);
      case Wake(t) => KeepsWake(s, t);
      case _ =>
        if e.TakeOwnership? || e.Release? || e.UnlockLk? { KeepsSimple(s, e); } else { KeepsWaiting(s, e); }
    }
  }

  // ------------------------------------------------- the flow of a call

  /** The order in which the code of lock_acquire, lock_release, cv_wait, cv_signal
      and cv_broadcast goes through its program points. */
  predicate Edge(p: Pc, p': Pc) {
    match p
    case Outside => p' == Acquiring
    case Acquiring => p' == Got
    case Got => p' == Held
    case Held => p' == Cleared(false) || p' == WaitLocked || p'.Signalling?
    case Cleared(w) => p' == Posted(w)
    case Posted(w) => p' == if w then WaitReleased else Outside
    case WaitLocked => p' == Cleared(true)
    case WaitReleased => p' == WaitAsleep
    case WaitAsleep => p' == WaitWoken
    case WaitWoken => p' == Acquiring
    case Signalling(_) => p' == Held
  }

  /** The rule that a call has broken, if it has: to acquire a lock one holds, or
      to release, wait or signal without holding it. */
  predicate Breaks(s: State, e: Event) {
    if e.CallAcquire? then s.owner == Some(e.t)
    else (e.CallWait? || e.CallSignal? || (e.Release? && Idle(At(s, e.t)))) && s.owner != Some(e.t)
  }

  /** Whatever step is taken by whomever, a thread stays where it is or goes along
      an edge; it is stopped exactly for a broken rule; and its own steps move it,
      but for a test of the semaphore that finds no unit. */
  lemma StepFlow(s: State, e: Event, t: Tid)
    requires Inv(s) && Enabled(s, e)
    ensures Do(s, e).halted <==> Breaks(s, e)
    ensures At(Do(s, e), t) == At(s, t) || (!Breaks(s, e) && Edge(At(s, t), At(Do(s, e), t)))
    ensures e.t == t && !Breaks(s, e) && !(e.TestSem? && s.sem.count == 0) ==> Edge(At(s, t), At(Do(s, e), t))
    ensures !Breaks(s, e) ==>
      (e == CallWait(t) ==> At(Do(s, e), t) == WaitLocked) &&
      (e.CallSignal? && e.t == t ==> At(Do(s, e), t) == Signalling(e.all)) &&
      (e == Release(t) ==> At(Do(s, e), t).Cleared?)
  {
    if e.Wake? {
      WakeShape(s, e.t);
      assert t in s.cvQueue[..WakeCount(s, e.t)] ==> t in s.cvQueue;
    }
  }

  /** From a point inside a call to its return. */
  function Route(p: Pc): seq<Pc>
    decreases RouteRank(p)
  {
    match p
    case Outside => [p]
    case Held => [p]
    case Got => [p] + Route(Held)
    case Acquiring => [p] + Route(Got)
    case WaitWoken => [p] + Route(Acquiring)
    case WaitAsleep => [p] + Route(WaitWoken)
    case WaitReleased => [p] + Route(WaitAsleep)
    case Posted(w) => [p] + Route(if w then WaitReleased else Outside)
    case Cleared(w) => [p] + Route(Posted(w))
    case WaitLocked => [p] + Route(Cleared(true))
    case Signalling(_) => [p] + Route(Held)
  }

  function RouteRank(p: Pc): nat {
    match p
    case Outside => 0 case Held => 0 case Got => 1 case Acquiring => 2 case WaitWoken => 3 case WaitAsleep => 4
    case WaitReleased => 5 case Posted(_) => 6 case Cleared(_) => 7 case WaitLocked => 8 case Signalling(_) => 1
  }

  /** The points that t goes through in a run, each as often as it is entered. */
  ghost function Trace(s: State, events: seq<Event>, t: Tid): seq<Pc>
    requires Possible(s, events)
    decreases |events|
  {
    if events == [] then [At(s, t)]
    else
      var s1 := Do(s, events[0]);
      if At(s1, t) == At(s, t) then Trace(s1, events[1..], t) else [At(s, t)] + Trace(s1, events[1..], t)
  }

  /** The run ends when t is between calls for the first time. */
  ghost predicate UntilReturn(s: State, events: seq<Event>, t: Tid)
    requires Possible(s, events)
    decreases |events|
  {
    if events == [] then Idle(At(s, t))
    else !Idle(At(s, t)) && UntilReturn(Do(s, events[0]), events[1..], t)
  }

  lemma {:induction false} CallFollowsRoute(s: State, events: seq<Event>, t: Tid)
    requires Inv(s) && Possible(s, events) && UntilReturn(s, events, t)
    ensures Trace(s, events, t) == Route(At(s, t)) && At(Run(s, events), t) == RouteEnd(At(s, t))
    decreases |events|
  {
    if events != [] {
      var s1 := Do(s, events[0]);
      StepKeepsInv(s, events[0]);
      assert At(s1, t) == At(s, t) || Edge(At(s, t), At(s1, t));
      if At(s1, t) != At(s, t) { RouteEdge(At(s, t), At(s1, t)); }
      CallFollowsRoute(s1, events[1..], t);
    }
  }

  /** Where a call returns to. */
  function RouteEnd(p: Pc): Pc { if p == Outside || p == Cleared(false) || p == Posted(false) then Outside else Held }

  /** Inside a call there is only one way to go. */
  lemma RouteEdge(p: Pc, p': Pc)
    requires !Idle(p) && Edge(p, p')
    ensures Route(p) == [p] + Route(p') && RouteEnd(p') == RouteEnd(p)
  {}

  /** cv_wait, over every run of all threads: a thread that has entered it releases
      the lock, sleeps on the channel, is woken, acquires the lock again and only
      then returns, as the owner. */
  lemma WaitReturnsAsOwner(s: State, events: seq<Event>, t: Tid)
    requires Inv(s) && Possible(s, events) && At(s, t) == WaitLocked && UntilReturn(s, events, t)
    ensures Trace(s, events, t)
            == [WaitLocked, Cleared(true), Posted(true), WaitReleased, WaitAsleep, WaitWoken, Acquiring, Got, Held]
    ensures At(Run(s, events), t) == Held && Run(s, events).owner == Some(t)
  {
    CallFollowsRoute(s, events, t);
    RunKeepsInv(s, events);
    WaitRoute();
  }

  lemma WaitRoute()
    ensures Route(WaitLocked)
            == [WaitLocked, Cleared(true), Posted(true), WaitReleased, WaitAsleep, WaitWoken, Acquiring, Got, Held]
  {
    assert Route(Acquiring) == [Acquiring, Got, Held];
    assert Route(WaitAsleep) == [WaitAsleep, WaitWoken] + Route(Acquiring);
    assert Route(Posted(true)) == [Posted(true), WaitReleased] + Route(WaitAsleep);
    assert Route(WaitLocked) == [WaitLocked, Cleared(true)] + Route(Posted(true));
  }

  /** lock_acquire returns as the owner, and lock_release no longer as the owner. */
  lemma AcquireAndReleaseReturn(s: State, events: seq<Event>, t: Tid)
    requires Inv(s) && Possible(s, events) && UntilReturn(s, events, t)
    ensures At(s, t) == Acquiring ==>
      Trace(s, events, t) == [Acquiring, Got, Held] && Run(s, events).owner == Some(t)
    ensures At(s, t) == Cleared(false) ==>
      Trace(s, events, t) == [Cleared(false), Posted(false), Outside] && Run(s, events).owner != Some(t)
    ensures At(s, t).Signalling? ==> Trace(s, events, t) == [At(s, t), Held] && Run(s, events).owner == Some(t)
  {
    CallFollowsRoute(s, events, t);
    RunKeepsInv(s, events);
    assert Route(Acquiring) == [Acquiring, Got, Held];
    assert Route(Cleared(false)) == [Cleared(false), Posted(false), Outside];
  }

  // ----------------------------------------------------------- whole runs

  ghost predicate Possible(s: State, events: seq<Event>)
    decreases |events|
  {
    events == [] || (Enabled(s, events[0]) && Possible(Do(s, events[0]), events[1..]))
  }

  ghost function Run(s: State, events: seq<Event>): State
    requires Possible(s, events)
    decreases |events|
  {
    if events == [] then s else Run(Do(s, events[0]), events[1..])
  }

  lemma {:induction false} RunKeepsInv(s: State, events: seq<Event>)
    requires Inv(s) && Possible(s, events)
    ensures Inv(Run(s, events))
    decreases |events|
  {
    if events != [] {
      StepKeepsInv(s, events[0]);
      RunKeepsInv(Do(s, events[0]), events[1..]);
    }
  }

  lemma InitInv(s: State)
    requires Init(s)
    ensures Inv(s)
  {}

  ghost function Those(s: State, f: Pc -> bool): set<Tid> {
    set t | t in s.pcs && f(s.pcs[t])
  }

  /** Lock mutual exclusion, over every interleaving of lock_acquire,
      lock_release, cv_wait, cv_signal and cv_broadcast by any number of threads:
      no internal assertion fails, the semaphore never overflows, and its count,
      the threads past P that are not yet owner, the owner, and the threads that
      have cleared lk_owner but not yet called V always add up to one. */
  lemma LockTheorem(s0: State, events: seq<Event>)
    requires Init(s0) && Possible(s0, events)
    ensures var s := Run(s0, events);
      !s.fault && !s.sem.panicked &&
      s.sem.count + |Those(s, p => p == Got)| + (if s.owner == None then 0 else 1) + |Those(s, (p: Pc) => p.Cleared?)| == 1
    ensures var s := Run(s0, events);
      forall t, u :: IsOwner(At(s, t)) && IsOwner(At(s, u)) ==> t == u
  {
    InitInv(s0);
    RunKeepsInv(s0, events);
    TokenSum(Run(s0, events));
  }

  lemma TokenSum(s: State)
    requires Inv(s)
    ensures s.sem.count + |Those(s, p => p == Got)| + (if s.owner == None then 0 else 1)
            + |Those(s, (p: Pc) => p.Cleared?)| == 1
  {
    var got, cleared := Those(s, p => p == Got), Those(s, (p: Pc) => p.Cleared?);
    assert forall t :: t in got || t in cleared ==> HasToken(At(s, t));
    assert s.owner.Some? ==> IsOwner(At(s, s.owner.value));
    if s.sem.count == 1 {
      assert got == {} && cleared == {};
    } else {
      var u: Tid :| HasToken(At(s, u));
      assert forall t :: t in got || t in cleared ==> t == u;
      if At(s, u) == Got {
        assert got == {u} && cleared == {};
      } else if At(s, u).Cleared? {
        assert got == {} && cleared == {u};
      } else {
        assert got == {} && cleared == {};
      }
    }
  }

  /** No thread is left asleep on a free lock: if nobody holds or is passing on
      the unit, a sleeper implies a woken thread on its way to take it. */
  lemma NoSleeperOnFreeLock(s0: State, events: seq<Event>)
    requires Init(s0) && Possible(s0, events)
    ensures var s := Run(s0, events);
      (forall t :: !HasToken(At(s, t))) && s.sem.queue != [] ==>
        exists t :: Sem.At(s.sem, t) == Sem.Woken
  {
    InitInv(s0);
    RunKeepsInv(s0, events);
    var s := Run(s0, events);
    if (forall t :: !HasToken(At(s, t))) && s.sem.queue != [] {
      assert s.sem.count == 1;
      var w := Sem.Those(s.sem.pcs, Sem.Woken);
      assert |w| > 0;
      var t :| t in w;
      assert Sem.At(s.sem, t) == Sem.Woken;
    }
  }

  /** The thread has given up the lock inside cv_wait and has not been woken. */
  predicate InWait(p: Pc) {
    (p.Cleared? && p.w) || (p.Posted? && p.w) || p == WaitReleased || p == WaitAsleep
  }

  /** No signal is lost: when a signaller comes to wake, every thread that has
      given up the lock in cv_wait and not been woken is already on the channel;
      cv_broadcast then wakes them all, and cv_signal one if there is any. */
  lemma SignalReachesWaiters(s0: State, events: seq<Event>, t: Tid)
    requires Init(s0) && Possible(s0, events)
    requires Enabled(Run(s0, events), Wake(t))
    ensures var s := Run(s0, events);
      (forall w :: InWait(At(s, w)) <==> w in s.cvQueue) &&
      var s' := Do(s, Wake(t));
      (At(s, t).all ==> forall w :: !InWait(At(s', w))) &&
      (!At(s, t).all && s.cvQueue != [] ==>
        At(s', s.cvQueue[0]) == WaitWoken && forall w :: w != s.cvQueue[0] ==> (InWait(At(s', w)) <==> InWait(At(s, w))))
  {
    InitInv(s0);
    RunKeepsInv(s0, events);
    var s := Run(s0, events);
    WaitersAreQueued(s, t);
    WakeReaches(s, t);
  }

  lemma WaitersAreQueued(s: State, t: Tid)
    requires Inv(s) && At(s, t).Signalling?
    ensures forall w :: InWait(At(s, w)) <==> w in s.cvQueue
  {}

  lemma WakeReaches(s: State, t: Tid)
    requires At(s, t).Signalling? && forall w :: InWait(At(s, w)) <==> w in s.cvQueue
    ensures var s' := DoWake(s, t);
      (At(s, t).all ==> forall w :: !InWait(At(s', w))) &&
      (!At(s, t).all && s.cvQueue != [] ==>
        At(s', s.cvQueue[0]) == WaitWoken && forall w :: w != s.cvQueue[0] ==> (InWait(At(s', w)) <==> InWait(At(s, w))))
  {}
}
