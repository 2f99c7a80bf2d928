/** kern/thread/thread.c: the order in which threads get to run, and the flow of
    thread_switch, thread_fork and thread_consider_migration, over the machine of
    ThreadSystem. */
module ThreadTurns {
  import opened Common
  import opened ThreadLists
  import opened ThreadSystem

  function RunQueue(s: State, d: nat): seq<Tid> { L(s.lists, Run(d)) }

  // ------------------------------------------------- run queues are queues

  /** The thread that a step puts on a run queue, and whose: the current thread that
      gives up its CPU, one newly created or woken, a leftover of a migration, or a
      victim sent to another CPU. */
  function Joins(s: State, e: Event): Option<(nat, Tid)>
    requires Enabled(s, e)
  {
    var c := e.c;
    match e
    case Place(_) => if s.cpus[c].pc.newstate == S_READY then Some((c, s.cpus[c].cur)) else None
    case MakeNewbornRunnable(_) =>
      var t := Head(s.lists, Newborn(s.cpus[c].cur)); Some((s.threads[t].cpu, t))
    case WakeMake(_) =>
      var t := Head(s.lists, Woken(c)); Some((s.threads[t].cpu, t))
    case MigPutOne(_) => Some((c, Head(s.lists, Victims(c))))
    case MigSendOne(_) =>
      if L(s.lists, Victims(c)) == [] || Head(s.lists, Victims(c)) == s.cpus[c].cur then None
      else Some((s.cpus[c].mig.i, Head(s.lists, Victims(c))))
    case _ => None
  }

  /** The run queue of CPU d after a step: whoever joins goes to the end, the CPU
      itself takes the first, migration takes the last, and otherwise the queue
      stays. */
  ghost predicate QueueLaw(s: State, e: Event, s': State, d: nat)
    requires Enabled(s, e)
  {
    var q, q' := RunQueue(s, d), RunQueue(s', d);
    if Joins(s, e).Some? && Joins(s, e).value.0 == d then q' == q + [Joins(s, e).value.1]
    else if e == PickNext(d) then d < |s'.cpus| && q == [s'.cpus[d].cur] + q'
    else if e == MigTakeOne(d) then
      q != [] && q == q' + [q[|q| - 1]] && L(s'.lists, Victims(d)) == [q[|q| - 1]] + L(s.lists, Victims(d))
    else q' == q
  }

  lemma SwitchQueue(s: State, e: Event, d: nat)
    requires Enabled(s, e) && CurOk(s, e.c) && FlagsOk(s, e.c) && d < |s.cpus|
    requires e.SwitchLock? || e.SwitchNothing? || e.Place? || e.SetState? || e.PickNone? || e.PickNext? || e.Finish?
    ensures QueueLaw(s, e, Do(s, e), d)
  {
    var q := RunQueue(s, d);
    if q != [] { assert q == [q[0]] + q[1..]; }
  }

  lemma RunnableQueue(s: State, e: Event, d: nat)
    requires Enabled(s, e) && d < |s.cpus| && (e.MakeNewbornRunnable? || e.WakeMake?)
    ensures QueueLaw(s, e, Do(s, e), d)
  {}

  lemma OtherQueue(s: State, e: Event, d: nat)
    requires Enabled(s, e) && d < |s.cpus|
    requires e.Fork? || e.WakeTake? || e.Exorcise? || e.ExorciseDone? || e.Interrupt? || e.TakeIpi? || e.Unidle?
    ensures QueueLaw(s, e, Do(s, e), d)
  {}

  lemma MigMoveQueue(s: State, e: Event, d: nat)
    requires Enabled(s, e) && MigOk(s, e.c) && d < |s.cpus| && (e.MigTakeOne? || e.MigPutOne?)
    ensures QueueLaw(s, e, Do(s, e), d)
  {
    var q := RunQueue(s, d);
    if q != [] { assert q == q[..|q| - 1] + [q[|q| - 1]]; }
  }

  lemma MigrationQueue(s: State, e: Event, d: nat)
    requires Enabled(s, e) && d < |s.cpus|
    requires e.MigStart? || e.MigCount? || e.MigDecide? || e.MigLockOwn? || e.MigTakeDone? ||
             e.MigNext? || e.MigSendDone? || e.MigReturn? || e.MigPutDone?
    ensures QueueLaw(s, e, Do(s, e), d)
  {
    assert Do(s, e).lists == s.lists;
  }

  lemma SendQueue(s: State, e: Event, d: nat)
    requires Enabled(s, e) && MigOk(s, e.c) && d < |s.cpus| && e.MigSendOne?
    ensures QueueLaw(s, e, Do(s, e), d)
  {
    SendLists(s, e.c);
  }

  /** Every step of every CPU treats every run queue as a queue. */
  lemma RunQueuesAreQueues(s: State, e: Event, d: nat)
    requires Inv(s) && Enabled(s, e) && d < |s.cpus|
    ensures QueueLaw(s, e, Do(s, e), d)
  {
    assert CurOk(s, e.c) && FlagsOk(s, e.c) && MigOk(s, e.c);
    if e.SwitchLock? || e.SwitchNothing? || e.Place? || e.SetState? || e.PickNone? || e.PickNext? || e.Finish? {
      SwitchQueue(s, e, d);
    } else if e.MakeNewbornRunnable? || e.WakeMake? {
      RunnableQueue(s, e, d);
    } else if e.Fork? || e.WakeTake? || e.Exorcise? || e.ExorciseDone? || e.Interrupt? || e.TakeIpi? || e.Unidle? {
      OtherQueue(s, e, d);
    } else if e.MigSendOne? {
      SendQueue(s, e, d);
    } else if e.MigTakeOne? || e.MigPutOne? {
      MigMoveQueue(s, e, d);
    } else {
      MigrationQueue(s, e, d);
    }
  }

  /** While a CPU holds the lock of a run queue, no other CPU's step changes the
      queue. */
  lemma LockedQueueStays(s: State, e: Event, d: nat, c: nat)
    requires Inv(s) && Enabled(s, e) && d < |s.cpus| && s.cpus[d].lock == Some(c) && e.c != c
    ensures RunQueue(Do(s, e), d) == RunQueue(s, d)
  {
    RunQueuesAreQueues(s, e, d);
    assert CurOk(s, e.c) && MigOk(s, e.c);
    assert s.cpus[d].lock == Some(e.c) <==> Holds(s, e.c, d);
  }

  // --------------------------------------------------- the flow of a switch

  /** The order in which a CPU goes through thread_switch. */
  predicate PcEdge(pc: Pc, pc': Pc) {
    match pc
    case Running => pc'.Locked?
    case Locked(ns, _) => pc' == Placed(ns) || (ns == S_READY && pc' == Running)
    case Placed(_) => pc' == Picking
    case Picking => pc' == Asleep || pc' == Switched
    case Asleep => pc' == Awake
    case Awake => pc' == Picking
    case Switched => pc' == Exorcising
    case Exorcising => pc' == Running
  }

  /** The steps that move a CPU on. */
  predicate Moves(pc: Pc, e: Event) {
    e.SwitchLock? || e.SwitchNothing? || e.Place? || e.SetState? || e.PickNone? || e.PickNext? || e.Finish? ||
    e.ExorciseDone? || e.Interrupt? || e.Unidle? || (e.TakeIpi? && pc == Asleep)
  }

  /** How CPU d moves in a step. */
  ghost predicate Flow(s: State, e: Event, s': State, d: nat)
    requires d < |s.cpus|
  {
    |s'.cpus| == |s.cpus| &&
    var pc, pc' := s.cpus[d].pc, s'.cpus[d].pc;
    (if e.c == d && Moves(pc, e) then PcEdge(pc, pc') else pc' == pc) &&
    (e != PickNext(d) ==> s'.cpus[d].cur == s.cpus[d].cur) &&
    (pc == Picking && pc' == Asleep ==> RunQueue(s, d) == []) &&
    (pc == Picking && pc' == Switched ==> RunQueue(s, d) != []) &&
    (pc.Locked? && pc' == Running ==> RunQueue(s, d) == [])
  }

  /** How its migration moves. */
  ghost predicate MigFlow(s: State, e: Event, s': State, d: nat)
    requires d < |s.cpus|
  {
    |s'.cpus| == |s.cpus| &&
    if e.c == d && Migrates(e) then MigEdge(s, d, s.cpus[d].mig, s'.cpus[d].mig) else s'.cpus[d].mig == s.cpus[d].mig
  }

  lemma SwitchFlow(s: State, e: Event, d: nat)
    requires Enabled(s, e) && d < |s.cpus|
    requires e.SwitchLock? || e.SwitchNothing? || e.SetState?
    ensures Flow(s, e, Do(s, e), d) && MigFlow(s, e, Do(s, e), d)
  {}

  lemma PickFlow(s: State, e: Event, d: nat)
    requires Enabled(s, e) && d < |s.cpus| && (e.PickNone? || e.PickNext? || e.Finish?)
    ensures Flow(s, e, Do(s, e), d) && MigFlow(s, e, Do(s, e), d)
  {}

  lemma PlaceFlow(s: State, e: Event, d: nat)
    requires Enabled(s, e) && d < |s.cpus| && e.Place?
    ensures Flow(s, e, Do(s, e), d) && MigFlow(s, e, Do(s, e), d)
  {}

  lemma RunnableFlow(s: State, e: Event, d: nat)
    requires Enabled(s, e) && d < |s.cpus| && (e.MakeNewbornRunnable? || e.WakeMake?)
    ensures Flow(s, e, Do(s, e), d) && MigFlow(s, e, Do(s, e), d)
  {}

  lemma OtherFlow(s: State, e: Event, d: nat)
    requires Enabled(s, e) && d < |s.cpus|
    requires e.Fork? || e.WakeTake? || e.Exorcise?
    ensures Flow(s, e, Do(s, e), d) && MigFlow(s, e, Do(s, e), d)
  {
    assert Do(s, e).cpus == s.cpus;
  }

  lemma IdleFlow(s: State, e: Event, d: nat)
    requires Enabled(s, e) && d < |s.cpus| && (e.ExorciseDone? || e.Interrupt? || e.TakeIpi? || e.Unidle?)
    ensures Flow(s, e, Do(s, e), d) && MigFlow(s, e, Do(s, e), d)
  {}

  lemma TakeFlow(s: State, e: Event, d: nat)
    requires Enabled(s, e) && MigOk(s, e.c) && d < |s.cpus|
    requires e.MigStart? || e.MigCount? || e.MigDecide? || e.MigLockOwn? || e.MigTakeOne? || e.MigTakeDone?
    ensures Flow(s, e, Do(s, e), d) && MigFlow(s, e, Do(s, e), d)
  {}

  lemma SendFlow(s: State, e: Event, d: nat)
    requires Enabled(s, e) && MigOk(s, e.c) && d < |s.cpus| && e.MigSendOne?
    ensures Flow(s, e, Do(s, e), d) && MigFlow(s, e, Do(s, e), d)
  {
    SendCpus(s, Do(s, e), e.c);
  }

  lemma ReturnFlow(s: State, e: Event, d: nat)
    requires Enabled(s, e) && d < |s.cpus|
    requires e.MigReturn? || e.MigPutOne? || e.MigPutDone?
    ensures Flow(s, e, Do(s, e), d) && MigFlow(s, e, Do(s, e), d)
  {}

  lemma NextFlow(s: State, e: Event, d: nat)
    requires Enabled(s, e) && d < |s.cpus| && (e.MigNext? || e.MigSendDone?)
    ensures Flow(s, e, Do(s, e), d) && MigFlow(s, e, Do(s, e), d)
  {}

  /** A CPU moves by its own steps only, and along the flow of thread_switch: it
      queues its thread unless there is nothing else to run, goes to sleep exactly
      if its queue is empty, and otherwise runs the first thread there. Likewise a
      migration goes on by steps of its own CPU only, in the order of the code. */
  lemma CpuFlow(s: State, e: Event, d: nat)
    requires Inv(s) && Enabled(s, e) && d < |s.cpus|
    ensures Flow(s, e, Do(s, e), d) && MigFlow(s, e, Do(s, e), d)
  {
    assert MigOk(s, e.c);
    if e.SwitchLock? || e.SwitchNothing? || e.SetState? {
      SwitchFlow(s, e, d);
    } else if e.PickNone? || e.PickNext? || e.Finish? {
      PickFlow(s, e, d);
    } else if e.Place? {
      PlaceFlow(s, e, d);
    } else if e.MakeNewbornRunnable? || e.WakeMake? {
      RunnableFlow(s, e, d);
    } else if e.Fork? || e.WakeTake? || e.Exorcise? {
      OtherFlow(s, e, d);
    } else if e.ExorciseDone? || e.Interrupt? || e.TakeIpi? || e.Unidle? {
      IdleFlow(s, e, d);
    } else if e.MigSendOne? {
      SendFlow(s, e, d);
    } else if e.MigNext? || e.MigSendDone? {
      NextFlow(s, e, d);
    } else if e.MigReturn? || e.MigPutOne? || e.MigPutDone? {
      ReturnFlow(s, e, d);
    } else {
      TakeFlow(s, e, d);
    }
  }

  // ---------------------------------------------------------- taking turns

  /** Where CPU c is on the way from thread t, which yields, to thread u, which was
      first in the queue before `rest`. */
  ghost predicate Turn(s: State, c: nat, t: Tid, u: Tid, rest: seq<Tid>) {
    c < |s.cpus| &&
    var pc, cur, q := s.cpus[c].pc, s.cpus[c].cur, RunQueue(s, c);
    (pc.Locked? && pc.newstate == S_READY && cur == t && q == [u] + rest) ||
    ((pc == Placed(S_READY) || pc == Picking) && cur == t && q == [u] + rest + [t]) ||
    (pc == Switched && cur == u && q == rest + [t])
  }

  /** Other CPUs may do anything meanwhile: the lock keeps them off the queue. */
  lemma OthersKeepTurn(s: State, e: Event, c: nat, t: Tid, u: Tid, rest: seq<Tid>)
    requires Inv(s) && Enabled(s, e) && Turn(s, c, t, u, rest) && e.c != c
    ensures Turn(Do(s, e), c, t, u, rest)
  {
    CpuFlow(s, e, c);
    assert s.cpus[c].lock == Some(c) <==> Holds(s, c, c);
    LockedQueueStays(s, e, c, c);
  }

  lemma OwnStepTurns(s: State, e: Event, t: Tid, u: Tid, rest: seq<Tid>)
    requires Inv(s) && Enabled(s, e) && Turn(s, e.c, t, u, rest) && s.cpus[e.c].pc != Switched
    ensures Turn(Do(s, e), e.c, t, u, rest)
  {
    assert FlagsOk(s, e.c);
    RunQueuesAreQueues(s, e, e.c);
    CpuFlow(s, e, e.c);
    TurnByLaws(s, e, Do(s, e), t, u, rest);
  }

  lemma TurnByLaws(s: State, e: Event, s': State, t: Tid, u: Tid, rest: seq<Tid>)
    requires Enabled(s, e) && FlagsOk(s, e.c) && Turn(s, e.c, t, u, rest) && s.cpus[e.c].pc != Switched
    requires QueueLaw(s, e, s', e.c) && Flow(s, e, s', e.c)
    ensures Turn(s', e.c, t, u, rest)
  {
    if e.PickNext? { FirstOf(u, rest + [t], s'.cpus[e.c].cur, RunQueue(s', e.c)); }
  }

  lemma FirstOf(u: Tid, q: seq<Tid>, v: Tid, q': seq<Tid>)
    requires [u] + q == [v] + q'
    ensures u == v && q == q'
  {
    assert ([u] + q)[0] == ([v] + q')[0] && ([u] + q)[1..] == ([v] + q')[1..];
  }

  /** The run ends when CPU c has switched for the first time. */
  ghost predicate UntilSwitched(s: State, events: seq<Event>, s': State, c: nat)
    decreases |events|
  {
    if events == [] then s' == s && c < |s.cpus| && s.cpus[c].pc == Switched
    else
      Enabled(s, events[0]) && c < |s.cpus| && s.cpus[c].pc != Switched &&
      UntilSwitched(Do(s, events[0]), events[1..], s', c)
  }

  /** Round robin, under every interleaving: once thread t, yielding on CPU c, has
      the run queue locked with u first, the next thread to run there is u; and t is
      then last in the queue, behind all that were there, in their order. */
  lemma {:induction false} YieldTakesTurns(s: State, events: seq<Event>, s': State, c: nat, t: Tid, u: Tid, rest: seq<Tid>)
    requires Inv(s) && Turn(s, c, t, u, rest) && UntilSwitched(s, events, s', c)
    ensures c < |s'.cpus| && s'.cpus[c].cur == u && RunQueue(s', c) == rest + [t]
    decreases |events|
  {
    if events != [] {
      var e := events[0];
      StepKeepsInv(s, e);
      if e.c == c { OwnStepTurns(s, e, t, u, rest); } else { OthersKeepTurn(s, e, c, t, u, rest); }
      YieldTakesTurns(Do(s, e), events[1..], s', c, t, u, rest);
    }
  }

  /** The next step of a CPU that is on its way. */
  function TurnEvent(pc: Pc, c: nat): Event {
    match pc
    case Locked(_, _) => Place(c)
    case Placed(_) => SetState(c)
    case Picking => PickNext(c)
    case _ => Finish(c)
  }

  lemma TurnGoesOn(s: State, c: nat, t: Tid, u: Tid, rest: seq<Tid>)
    requires Inv(s) && Turn(s, c, t, u, rest)
    ensures Enabled(s, TurnEvent(s.cpus[c].pc, c))
    ensures var s' := Do(s, TurnEvent(s.cpus[c].pc, c));
      Inv(s') && (s.cpus[c].pc != Switched ==> Turn(s', c, t, u, rest) && PcEdge(s.cpus[c].pc, s'.cpus[c].pc))
  {
    assert CurOk(s, c) && FlagsOk(s, c);
    var e := TurnEvent(s.cpus[c].pc, c);
    StepKeepsInv(s, e);
    if s.cpus[c].pc != Switched {
      OwnStepTurns(s, e, t, u, rest);
      CpuFlow(s, e, c);
    }
  }

  lemma YieldSwitches(s: State, c: nat, t: Tid, u: Tid, rest: seq<Tid>) returns (s1: State, s2: State, s3: State)
    requires Inv(s) && Turn(s, c, t, u, rest) && s.cpus[c].pc.Locked?
    ensures Enabled(s, Place(c)) && s1 == Do(s, Place(c)) && Enabled(s1, SetState(c)) && s2 == Do(s1, SetState(c))
    ensures Enabled(s2, PickNext(c)) && s3 == Do(s2, PickNext(c))
    ensures Inv(s3) && Turn(s3, c, t, u, rest) && s3.cpus[c].pc == Switched
  {
    TurnGoesOn(s, c, t, u, rest);
    s1 := Do(s, Place(c));
    TurnGoesOn(s1, c, t, u, rest);
    s2 := Do(s1, SetState(c));
    TurnGoesOn(s2, c, t, u, rest);
    s3 := Do(s2, PickNext(c));
  }

  /** thread_yield can indeed do so: its steps follow on one another, and at the end
      u is running, in state S_RUN, with t ready and the queue unlocked. */
  lemma YieldRuns(s: State, c: nat, u: Tid, rest: seq<Tid>) returns (events: seq<Event>, s': State)
    requires Inv(s) && c < |s.cpus| && Free(s, c) && s.cpus[c].pc == Running
    requires L(s.lists, Woken(c)) == [] && LockFree(s, c) && RunQueue(s, c) == [u] + rest
    ensures events == [SwitchLock(c, S_READY, 0), Place(c), SetState(c), PickNext(c), Finish(c)]
    ensures Reaches(s, events, s') && Inv(s')
    ensures LockFree(s', c) && s'.cpus[c].cur == u && RunQueue(s', c) == rest + [s.cpus[c].cur]
    ensures u in s'.threads && s'.threads[u].state == S_RUN
    ensures s.cpus[c].cur in s'.threads && s'.threads[s.cpus[c].cur].state == S_READY
  {
    var s1, s2, s3, s4;
    s1, s2, s3, s4, s' := YieldStates(s, c, u, rest);
    events := FiveSteps(s, s1, s2, s3, s4, s', SwitchLock(c, S_READY, 0), Place(c), SetState(c), PickNext(c), Finish(c));
  }

  lemma FiveSteps(s: State, s1: State, s2: State, s3: State, s4: State, s5: State,
                  e1: Event, e2: Event, e3: Event, e4: Event, e5: Event) returns (events: seq<Event>)
    requires Enabled(s, e1) && s1 == Do(s, e1) && Enabled(s1, e2) && s2 == Do(s1, e2) && Enabled(s2, e3) && s3 == Do(s2, e3)
    requires Enabled(s3, e4) && s4 == Do(s3, e4) && Enabled(s4, e5) && s5 == Do(s4, e5)
    ensures events == [e1, e2, e3, e4, e5] && Reaches(s, events, s5)
  {
    events := FourSteps(s1, s2, s3, s4, s5, e2, e3, e4, e5);
    events := FirstStep(s, e1, events, s5);
  }

  lemma YieldStates(s: State, c: nat, u: Tid, rest: seq<Tid>)
    returns (s1: State, s2: State, s3: State, s4: State, s': State)
    requires Inv(s) && c < |s.cpus| && Free(s, c) && s.cpus[c].pc == Running
    requires L(s.lists, Woken(c)) == [] && LockFree(s, c) && RunQueue(s, c) == [u] + rest
    ensures Enabled(s, SwitchLock(c, S_READY, 0)) && s1 == Do(s, SwitchLock(c, S_READY, 0))
    ensures Enabled(s1, Place(c)) && s2 == Do(s1, Place(c)) && Enabled(s2, SetState(c)) && s3 == Do(s2, SetState(c))
    ensures Enabled(s3, PickNext(c)) && s4 == Do(s3, PickNext(c)) && Enabled(s4, Finish(c)) && s' == Do(s4, Finish(c))
    ensures Inv(s') && LockFree(s', c) && s'.cpus[c].cur == u && RunQueue(s', c) == rest + [s.cpus[c].cur]
    ensures u in s'.threads && s'.threads[u].state == S_RUN
    ensures s.cpus[c].cur in s'.threads && s'.threads[s.cpus[c].cur].state == S_READY
  {
    var t := s.cpus[c].cur;
    YieldLocks(s, c, u, rest);
    s1 := Do(s, SwitchLock(c, S_READY, 0));
    s2, s3, s4 := YieldSwitches(s1, c, t, u, rest);
    s' := YieldEnds(s4, c, t, u, rest);
  }

  lemma OneStep(s: State, e: Event) returns (s': State)
    requires Inv(s) && Enabled(s, e)
    ensures s' == Do(s, e) && Inv(s')
  {
    StepKeepsInv(s, e);
    s' := Do(s, e);
  }

  lemma YieldLocks(s: State, c: nat, u: Tid, rest: seq<Tid>)
    requires Inv(s) && c < |s.cpus| && Free(s, c) && s.cpus[c].pc == Running
    requires L(s.lists, Woken(c)) == [] && LockFree(s, c) && RunQueue(s, c) == [u] + rest
    ensures Enabled(s, SwitchLock(c, S_READY, 0))
    ensures var s1 := Do(s, SwitchLock(c, S_READY, 0));
      Inv(s1) && Turn(s1, c, s.cpus[c].cur, u, rest) && s1.cpus[c].pc.Locked?
  {
    StepKeepsInv(s, SwitchLock(c, S_READY, 0));
  }

  lemma YieldEnds(s: State, c: nat, t: Tid, u: Tid, rest: seq<Tid>) returns (s': State)
    requires Inv(s) && Turn(s, c, t, u, rest) && s.cpus[c].pc == Switched
    ensures Enabled(s, Finish(c)) && s' == Do(s, Finish(c)) && Inv(s')
    ensures LockFree(s', c) && s'.cpus[c].cur == u && RunQueue(s', c) == rest + [t]
    ensures u in s'.threads && s'.threads[u].state == S_RUN && t in s'.threads && s'.threads[t].state == S_READY
  {
    TurnGoesOn(s, c, t, u, rest);
    s' := Do(s, Finish(c));
    LastIsReady(s, s', c, t, rest);
  }

  lemma LastIsReady(s: State, s': State, c: nat, t: Tid, rest: seq<Tid>)
    requires Inv(s) && c < |s.cpus| && Enabled(s, Finish(c)) && s' == Do(s, Finish(c)) && Inv(s')
    requires RunQueue(s, c) == rest + [t]
    ensures RunQueue(s', c) == RunQueue(s, c) && t in s'.threads && s'.threads[t].state == S_READY
    ensures s'.cpus[c].cur == s.cpus[c].cur && LockFree(s', c)
    ensures s.cpus[c].cur in s'.threads && s'.threads[s.cpus[c].cur].state == S_RUN
  {
    assert RunQueue(s', c)[|rest|] == t;
    assert On(s'.lists, Run(c), t) && MemberOk(s', Run(c), t);
  }

  lemma FirstStep(s: State, e: Event, rest: seq<Event>, s': State) returns (events: seq<Event>)
    requires Enabled(s, e) && Reaches(Do(s, e), rest, s')
    ensures events == [e] + rest && Reaches(s, events, s')
  {
    events := [e] + rest;
    assert events[1..] == rest;
  }

  lemma TwoSteps(s: State, s1: State, e1: Event, e2: Event, rest: seq<Event>, s': State) returns (events: seq<Event>)
    requires Enabled(s, e1) && s1 == Do(s, e1) && Enabled(s1, e2) && Reaches(Do(s1, e2), rest, s')
    ensures events == [e1, e2] + rest && Reaches(s, events, s')
  {
    events := FirstStep(s1, e2, rest, s');
    events := FirstStep(s, e1, events, s');
  }

  lemma FourSteps(s: State, s1: State, s2: State, s3: State, s4: State, e1: Event, e2: Event, e3: Event, e4: Event)
    returns (events: seq<Event>)
    requires Enabled(s, e1) && s1 == Do(s, e1) && Enabled(s1, e2) && s2 == Do(s1, e2)
    requires Enabled(s2, e3) && s3 == Do(s2, e3) && Enabled(s3, e4) && s4 == Do(s3, e4)
    ensures events == [e1, e2, e3, e4] && Reaches(s, events, s4)
  {
    events := TwoSteps(s2, s3, e3, e4, [], s4);
    events := TwoSteps(s, s1, e1, e2, events, s4);
  }

  /** A sleeping CPU that is poked goes on with the first thread of its queue. */
  lemma PokedCpuRuns(s: State, c: nat, u: Tid, rest: seq<Tid>) returns (events: seq<Event>, s': State)
    requires Inv(s) && c < |s.cpus| && s.cpus[c].pc == Asleep && LockFree(s, c) && RunQueue(s, c) == [u] + rest
    ensures events == [TakeIpi(c), Unidle(c), PickNext(c), Finish(c)] && Reaches(s, events, s') && Inv(s')
    ensures LockFree(s', c) && s'.cpus[c].cur == u && RunQueue(s', c) == rest && !s'.cpus[c].idle && !s'.cpus[c].ipi
  {
    assert FlagsOk(s, c);
    var s1 := OneStep(s, TakeIpi(c));
    var s2 := OneStep(s1, Unidle(c));
    var s3 := OneStep(s2, PickNext(c));
    RunQueuesAreQueues(s2, PickNext(c), c);
    FirstOf(u, rest, s3.cpus[c].cur, RunQueue(s3, c));
    assert CurOk(s3, c);
    s' := OneStep(s3, Finish(c));
    events := FourSteps(s, s1, s2, s3, s', TakeIpi(c), Unidle(c), PickNext(c), Finish(c));
  }

  /** thread_fork: the new thread is last in the run queue of its parent's CPU, and
      belongs to that CPU. */
  lemma ForkedThreadRuns(s: State, c: nat, t: Tid) returns (events: seq<Event>, s': State)
    requires Inv(s) && Enabled(s, Fork(c, t)) && LockFree(s, c) && L(s.lists, Newborn(s.cpus[c].cur)) == []
    ensures events == [Fork(c, t), MakeNewbornRunnable(c)] && Reaches(s, events, s') && Inv(s')
    ensures RunQueue(s', c) == RunQueue(s, c) + [t] && t in s'.threads && s'.threads[t] == Thread(S_READY, c)
  {
    var s1 := OneStep(s, Fork(c, t));
    NewbornWaits(s, c, t);
    s' := OneStep(s1, MakeNewbornRunnable(c));
    NewbornQueued(s1, s', c, t);
    events := FirstStep(s1, MakeNewbornRunnable(c), [], s');
    events := FirstStep(s, Fork(c, t), events, s');
  }

  lemma NewbornQueued(s: State, s': State, c: nat, t: Tid)
    requires Inv(s) && Enabled(s, MakeNewbornRunnable(c)) && s' == Do(s, MakeNewbornRunnable(c)) && Inv(s')
    requires L(s.lists, Newborn(s.cpus[c].cur)) == [t] && t in s.threads && s.threads[t].cpu == c
    ensures RunQueue(s', c) == RunQueue(s, c) + [t] && t in s'.threads && s'.threads[t] == Thread(S_READY, c)
  {
    RunQueuesAreQueues(s, MakeNewbornRunnable(c), c);
    assert RunQueue(s', c)[|RunQueue(s, c)|] == t;
    assert On(s'.lists, Run(c), t) && MemberOk(s', Run(c), t);
  }

  lemma NewbornWaits(s: State, c: nat, t: Tid)
    requires Inv(s) && Enabled(s, Fork(c, t)) && LockFree(s, c) && L(s.lists, Newborn(s.cpus[c].cur)) == []
    ensures var s1 := Do(s, Fork(c, t));
      s1.cpus == s.cpus && L(s1.lists, Newborn(s.cpus[c].cur)) == [t] && RunQueue(s1, c) == RunQueue(s, c) &&
      t in s1.threads && s1.threads[t].cpu == c && Enabled(s1, MakeNewbornRunnable(c))
  {
    assert CurOk(s, c);
    assert [] + [t] == [t];
    NewbornLists(s, c, t);
  }

  lemma NewbornLists(s: State, c: nat, t: Tid)
    requires c < |s.cpus| && s.cpus[c].cur in s.threads
    ensures var s1, id := DoFork(s, c, t), Newborn(s.cpus[c].cur);
      L(s1.lists, id) == L(s.lists, id) + [t] && RunQueue(s1, c) == RunQueue(s, c)
  {}

  /** exorcise: the first zombie is gone, from the list and altogether, and no other
      thread is; the loop ends only when there is none. */
  lemma ZombieIsDestroyed(s: State, c: nat)
    requires Inv(s) && c < |s.cpus| && s.cpus[c].pc == Exorcising
    ensures Enabled(s, ExorciseDone(c)) <==> L(s.lists, Zombie(c)) == []
    ensures Enabled(s, Exorcise(c)) ==>
      var s', z := Do(s, Exorcise(c)), Head(s.lists, Zombie(c));
      L(s.lists, Zombie(c)) == [z] + L(s'.lists, Zombie(c)) && s'.threads == s.threads - {z} && z in s.threads &&
      s'.cpus == s.cpus
  {
    if Enabled(s, Exorcise(c)) {
      var q := L(s.lists, Zombie(c));
      assert q == [q[0]] + q[1..];
      assert On(s.lists, Zombie(c), q[0]) && MemberOk(s, Zombie(c), q[0]);
    }
  }

  // ------------------------------------------------ the course of a migration

  /** The order of thread_consider_migration on CPU c: count every queue in turn;
      decide; take as many victims as decided; go through the CPUs from 0 on, past
      itself, until all are done or nothing is left to send, leaving each only when
      its queue has its share or nothing is left; then put leftovers back. */
  ghost predicate MigEdge(s: State, c: nat, m: Migration, m': Migration) {
    match m
    case NoMigration => m' == Count([], 0, 0)
    case Count(seen, _, _) =>
      if |seen| < |s.cpus| then m'.Count? && m'.seen == seen + [|RunQueue(s, |seen|)|]
      else m' == NoMigration || m'.TakeStart?
    case TakeStart(toSend, share) => m' == Take(toSend, toSend, share)
    case Take(left, toSend, share) =>
      if left > 0 then m' == Take(left - 1, toSend, share) else m' == Send(0, toSend, share)
    case Send(i, toSend, share) =>
      if i >= |s.cpus| || toSend == 0 then m' == Return
      else if i == c then m' == Send(i + 1, toSend, share)
      else m' == SendTo(i, toSend, share)
    case SendTo(i, toSend, share) =>
      if toSend > 0 && |RunQueue(s, i)| < share then m' == SendTo(i, toSend - 1, share)
      else m' == Send(i + 1, toSend, share)
    case Return => m' == if L(s.lists, Victims(c)) == [] then NoMigration else PutBack
    case PutBack => if L(s.lists, Victims(c)) != [] then m' == PutBack else m' == NoMigration
  }

  predicate Migrates(e: Event) {
    e.MigStart? || e.MigCount? || e.MigDecide? || e.MigLockOwn? || e.MigTakeOne? || e.MigTakeDone? ||
    e.MigNext? || e.MigSendOne? || e.MigSendDone? || e.MigReturn? || e.MigPutOne? || e.MigPutDone?
  }

  predicate IsSending(m: Migration) { m.Send? || m.SendTo? }

  /** The first CPU that the loop has yet to look at. */
  function Ahead(m: Migration): nat
    requires IsSending(m)
  {
    if m.Send? then m.i else m.i + 1
  }

  /** The CPUs that c turns to in a run. */
  ghost function Visits(s: State, events: seq<Event>, s': State, c: nat): seq<nat>
    requires Reaches(s, events, s')
    decreases |events|
  {
    if events == [] then []
    else
      var s1 := Do(s, events[0]);
      var rest := Visits(s1, events[1..], s', c);
      if c < |s.cpus| && c < |s1.cpus| && s.cpus[c].mig.Send? && s1.cpus[c].mig.SendTo?
      then [s1.cpus[c].mig.i] + rest
      else rest
  }

  /** lo, .., hi - 1 without c. */
  function Others(c: nat, lo: nat, hi: nat): seq<nat>
    decreases hi - lo
  {
    if lo >= hi then [] else (if lo == c then [] else [lo]) + Others(c, lo + 1, hi)
  }

  /** The run ends when CPU c is through with sending. */
  ghost predicate UntilSent(s: State, events: seq<Event>, s': State, c: nat)
    requires Reaches(s, events, s')
    decreases |events|
  {
    c < |s.cpus| &&
    if events == [] then s.cpus[c].mig == Return
    else IsSending(s.cpus[c].mig) && UntilSent(Do(s, events[0]), events[1..], s', c)
  }

  /** Where the loop is in the last state before its end. */
  ghost function LastSending(s: State, events: seq<Event>, s': State, c: nat): (m: Migration)
    requires Reaches(s, events, s') && UntilSent(s, events, s', c) && events != []
    ensures IsSending(m)
    decreases |events|
  {
    if |events| == 1 then s.cpus[c].mig else LastSending(Do(s, events[0]), events[1..], s', c)
  }

  /** The sending loop, under every interleaving: CPU c turns to each other CPU once,
      in order, up to some CPU hi; and hi is past the last unless nothing was left to
      send when the loop ended. */
  lemma {:induction false} VisitsInOrder(s: State, events: seq<Event>, s': State, c: nat) returns (hi: nat)
    requires Inv(s) && Reaches(s, events, s') && UntilSent(s, events, s', c)
    requires IsSending(s.cpus[c].mig) && Ahead(s.cpus[c].mig) <= |s.cpus|
    ensures Ahead(s.cpus[c].mig) <= hi <= |s.cpus| && (hi == |s.cpus| || LastSending(s, events, s', c).toSend == 0)
    ensures Visits(s, events, s', c) == Others(c, Ahead(s.cpus[c].mig), hi)
    decreases |events|
  {
    var e, s1 := events[0], Do(s, events[0]);
    StepKeepsInv(s, e);
    CpuFlow(s, e, c);
    var m, m1 := s.cpus[c].mig, s1.cpus[c].mig;
    assert MigOk(s, c);
    if m1 == Return {
      hi := m.i;
      assert events[1..] == [];
    } else {
      SendEdge(s, c, m, m1);
      hi := VisitsInOrder(s1, events[1..], s', c);
    }
  }

  /** One step of the loop, as far as visits go. */
  lemma SendEdge(s: State, c: nat, m: Migration, m1: Migration)
    requires IsSending(m) && m1 != Return && Ahead(m) <= |s.cpus| && (m1 == m || MigEdge(s, c, m, m1))
    requires m.SendTo? ==> m.i < |s.cpus|
    ensures IsSending(m1) && Ahead(m) <= Ahead(m1) <= |s.cpus|
    ensures forall hi: nat :: Ahead(m1) <= hi ==>
      Others(c, Ahead(m), hi) == (if m.Send? && m1.SendTo? then [m1.i] else []) + Others(c, Ahead(m1), hi)
  {}
}
