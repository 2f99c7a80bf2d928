/** kern/thread/hangman.c: the deadlock detector's waits-for graph. An actor
    waits for at most one lockable and a lockable is held by at most one actor,
    so every actor has at most one successor. */
module WaitsForGraph {
  import opened Common

  type Actor = nat
  type Lockable = nat

  datatype Graph = Graph(waiting: map<Actor, Lockable>, holding: map<Lockable, Actor>)

  function Holder(g: Graph, l: Lockable): Option<Actor> {
    if l in g.holding then Some(g.holding[l]) else None
  }

  /** Whom a waits for. */
  function Succ(g: Graph, a: Actor): Option<Actor> {
    if a in g.waiting then Holder(g, g.waiting[a]) else None
  }

  /** The actor n edges away from a, if the path is that long. */
  ghost function Steps(g: Graph, a: Actor, n: nat): Option<Actor>
    decreases n
  {
    if n == 0 then Some(a)
    else match Succ(g, a) case None => None case Some(b) => Steps(g, b, n - 1)
  }

  ghost predicate Path(g: Graph, a: Actor, b: Actor) {
    exists n: nat :: Steps(g, a, n) == Some(b)
  }

  /** No actor waits, through any chain, for itself. */
  ghost predicate Acyclic(g: Graph) {
    forall a: Actor, n: nat :: n > 0 ==> Steps(g, a, n) != Some(a)
  }

  /** Waiting for l would make a wait for itself. */
  ghost predicate WouldDeadlock(g: Graph, a: Actor, l: Lockable) {
    l in g.holding && Path(g, g.holding[l], a)
  }

  function Waiting(g: Graph, a: Actor, l: Lockable): Graph { g.(waiting := g.waiting[a := l]) }
  function Acquired(g: Graph, a: Actor, l: Lockable): Graph {
    g.(holding := g.holding[l := a], waiting := g.waiting - {a})
  }
  function Released(g: Graph, l: Lockable): Graph { g.(holding := g.holding - {l}) }

  lemma {:induction false} StepsAdd(g: Graph, a: Actor, m: nat, n: nat)
    requires Steps(g, a, m).Some?
    ensures Steps(g, a, m + n) == Steps(g, Steps(g, a, m).value, n)
    decreases m
  {
    if m > 0 { StepsAdd(g, Succ(g, a).value, m - 1, n); }
  }

  /** A path of g' that stays clear of sink z is a path of g, if g' and g differ
      only in edges out of, or into, z. */
  lemma {:induction false} PathAvoiding(g: Graph, g': Graph, z: Actor, a: Actor, n: nat)
    requires Succ(g', z) == None
    requires forall x :: Succ(g', x) == Succ(g, x) || Succ(g', x) == None || Succ(g', x) == Some(z)
    requires Steps(g', a, n).Some? && Steps(g', a, n).value != z
    ensures Steps(g, a, n) == Steps(g', a, n)
    decreases n
  {
    if n > 0 {
      var b := Succ(g', a).value;
      assert b != z;
      PathAvoiding(g, g', z, b, n - 1);
    }
  }

  /** Recording an acquisition keeps the graph acyclic. */
  lemma AcquireKeepsAcyclic(g: Graph, a: Actor, l: Lockable)
    requires Acyclic(g) && l !in g.holding
    ensures Acyclic(Acquired(g, a, l))
  {
    var g' := Acquired(g, a, l);
    forall x: Actor, n: nat | n > 0 ensures Steps(g', x, n) != Some(x) {
      if Steps(g', x, n) == Some(x) && x != a { PathAvoiding(g, g', a, x, n); }
    }
  }

  lemma {:induction false} FewerEdges(g: Graph, g': Graph, a: Actor, n: nat)
    requires forall x :: Succ(g', x) == Succ(g, x) || Succ(g', x) == None
    requires Steps(g', a, n).Some?
    ensures Steps(g, a, n) == Steps(g', a, n)
    decreases n
  {
    if n > 0 { FewerEdges(g, g', Succ(g', a).value, n - 1); }
  }

  lemma ReleaseKeepsAcyclic(g: Graph, l: Lockable)
    requires Acyclic(g)
    ensures Acyclic(Released(g, l))
  {
    var g' := Released(g, l);
    forall x: Actor, n: nat | n > 0 ensures Steps(g', x, n) != Some(x) {
      if Steps(g', x, n) == Some(x) { FewerEdges(g, g', x, n); }
    }
  }

  /** A walk of g' from h that comes to a contains a walk of g from h to a, if
      the two graphs differ only in the edge out of a. */
  lemma {:induction false} FirstVisit(g: Graph, g': Graph, a: Actor, h: Actor, n: nat) returns (k: nat)
    requires forall x :: x != a ==> Succ(g', x) == Succ(g, x)
    requires Steps(g', h, n) == Some(a)
    ensures k <= n && Steps(g, h, k) == Some(a)
    decreases n
  {
    if h == a {
      k := 0;
    } else {
      k := FirstVisit(g, g', a, Succ(g, h).value, n - 1);
      k := k + 1;
    }
  }

  /** If a is a sink of g, walks of g to a are walks of g'. */
  lemma {:induction false} WalkToSink(g: Graph, g': Graph, a: Actor, h: Actor, k: nat)
    requires forall x :: x != a ==> Succ(g', x) == Succ(g, x)
    requires Succ(g, a) == None && Steps(g, h, k) == Some(a)
    ensures Steps(g', h, k) == Some(a)
    decreases k
  {
    if k > 0 { WalkToSink(g, g', a, Succ(g, h).value, k - 1); }
  }

  /** A walk either meets a or is a walk of the other graph. */
  lemma {:induction false} MeetsOrSame(g: Graph, g': Graph, a: Actor, x: Actor, n: nat) returns (i: nat)
    requires forall y :: y != a ==> Succ(g', y) == Succ(g, y)
    requires Steps(g', x, n).Some?
    ensures i <= n
    ensures Steps(g', x, i) == Some(a) || Steps(g, x, n) == Steps(g', x, n)
    decreases n
  {
    i := 0;
    if x != a && n > 0 {
      i := MeetsOrSame(g, g', a, Succ(g', x).value, n - 1);
      i := i + 1;
    }
  }

  /** The new wait edge closes a cycle exactly when the detector says so. */
  lemma WaitClosesCycleIff(g: Graph, a: Actor, l: Lockable)
    requires Acyclic(g) && a !in g.waiting
    ensures Acyclic(Waiting(g, a, l)) <==> !WouldDeadlock(g, a, l)
  {
    var g' := Waiting(g, a, l);
    if WouldDeadlock(g, a, l) {
      var h := g.holding[l];
      var k: nat :| Steps(g, h, k) == Some(a);
      WalkToSink(g, g', a, h, k);
      assert Steps(g', a, k + 1) == Some(a);
    }
    if !Acyclic(g') {
      var x: Actor, n: nat :| n > 0 && Steps(g', x, n) == Some(x);
      CycleGoesThrough(g, g', a, x, n);
      assert Succ(g', a).Some?;
      var k := FirstVisit(g, g', a, g.holding[l], n - 1);
      assert Path(g, g.holding[l], a);
    }
  }

  /** Any cycle of g' passes a, so there is one of the same length from a. */
  lemma CycleGoesThrough(g: Graph, g': Graph, a: Actor, x: Actor, n: nat)
    requires Acyclic(g) && n > 0 && Steps(g', x, n) == Some(x)
    requires forall y :: y != a ==> Succ(g', y) == Succ(g, y)
    ensures Steps(g', a, n) == Some(a)
  {
    var i := MeetsOrSame(g, g', a, x, n);
    assert Steps(g', x, i) == Some(a);
    StepsAdd(g', x, i, n);
    StepsAdd(g', x, n, i);
  }
}

module Hangman {
  import opened Common
  import opened WaitsForGraph

  /** What a call ends in; everything but Done is a panic. */
  datatype Outcome =
    | Done
    | AlreadyWaiting
    | Deadlock(chain: seq<Actor>)
    | NotWaiting
    | StillHeld
    | WaitingForSomething
    | NotTheHolder

  class Detector {
    /** a_waiting of each actor, l_holding of each lockable; absent for NULL. */
    var waiting: map<Actor, Lockable>
    var holding: map<Lockable, Actor>
    /** The lockable inside hangman_lock itself, which is exempt. */
    const own: Lockable

    ghost function G(): Graph
      reads this
    {
      Graph(waiting, holding)
    }

    constructor (own: Lockable)
      ensures G() == Graph(map[], map[]) && this.own == own
    {
      this.own := own;
      waiting, holding := map[], map[];
    }

    /** hangman_check: walks the graph from the holder of start. It terminates on
        every acyclic graph and finds target exactly if there is a path to it;
        the chain reported is that path. */
    method Check(start: Lockable, target: Actor) returns (found: bool, chain: seq<Actor>)
      requires Acyclic(G())
      ensures found <==> WouldDeadlock(G(), target, start)
      ensures found ==> Closes(G(), target, start, chain)
    {
      found, chain := false, [];
      if start !in holding { return; }
      var cur := holding[start];
      ghost var h := cur;
      while cur != target
        invariant Steps(G(), h, |chain|) == Some(cur)
        invariant Follows(G(), h, chain) && target !in chain
        invariant forall x :: x in chain ==> x in waiting
        decreases |waiting.Keys - (set x | x in chain)|
      {
        if cur !in waiting || waiting[cur] !in holding {
          NoPathPast(G(), h, chain, target);
          return;
        }
        NotSeen(G(), h, chain, cur);
        Extend(G(), h, chain, cur);
        Fewer(waiting.Keys, chain, cur);
        chain := chain + [cur];
        cur := holding[waiting[cur]];
      }
      found, chain := true, chain + [cur];
      FollowsSucc(G(), h, chain);
    }

    /** hangman_wait. */
    method Wait(a: Actor, l: Lockable) returns (o: Outcome)
      requires Acyclic(G())
      modifies this
      ensures Acyclic(G()) && WaitSpec(old(G()), own, a, l, o, G())
      ensures holding == old(holding) && waiting == if o == Done && l != own then old(waiting)[a := l] else old(waiting)
    {
      if l == own { return Done; }
      if a in waiting { return AlreadyWaiting; }
      var found, chain := Check(l, a);
      WaitClosesCycleIff(G(), a, l);
      if found { return Deadlock(chain); }
      waiting := waiting[a := l];
      o := Done;
    }

    /** hangman_acquire. */
    method Acquire(a: Actor, l: Lockable) returns (o: Outcome)
      requires Acyclic(G())
      modifies this
      ensures Acyclic(G()) && AcquireSpec(old(G()), own, a, l, o, G())
      ensures holding == if o == Done && l != own then old(holding)[l := a] else old(holding)
      ensures waiting == if o == Done && l != own then old(waiting) - {a} else old(waiting)
    {
      if l == own { return Done; }
      if a !in waiting || waiting[a] != l { return NotWaiting; }
      if l in holding { return StillHeld; }
      AcquireKeepsAcyclic(G(), a, l);
      holding := holding[l := a];
      waiting := waiting - {a};
      o := Done;
    }

    /** hangman_release. */
    method Release(a: Actor, l: Lockable) returns (o: Outcome)
      requires Acyclic(G())
      modifies this
      ensures Acyclic(G()) && ReleaseSpec(old(G()), own, a, l, o, G())
      ensures waiting == old(waiting) && holding == if o == Done && l != own then old(holding) - {l} else old(holding)
    {
      if l == own { return Done; }
      if a in waiting { return WaitingForSomething; }
      if l !in holding || holding[l] != a { return NotTheHolder; }
      ReleaseKeepsAcyclic(G(), l);
      holding := holding - {l};
      o := Done;
    }
  }

  /** chain leads from the holder of l, each actor waiting for the next, to a:
      with a waiting for l it is a cycle. */
  ghost predicate Closes(g: Graph, a: Actor, l: Lockable, chain: seq<Actor>) {
    |chain| > 0 && Holder(g, l) == Some(chain[0]) && chain[|chain| - 1] == a &&
    forall i :: 0 <= i < |chain| - 1 ==> Succ(g, chain[i]) == Some(chain[i + 1])
  }

  ghost predicate WaitSpec(g: Graph, own: Lockable, a: Actor, l: Lockable, o: Outcome, g': Graph) {
    if l == own then o == Done && g' == g
    else if a in g.waiting then o == AlreadyWaiting && g' == g
    else if WouldDeadlock(g, a, l) then o.Deadlock? && Closes(g, a, l, o.chain) && g' == g
    else o == Done && g' == Waiting(g, a, l)
  }

  ghost predicate AcquireSpec(g: Graph, own: Lockable, a: Actor, l: Lockable, o: Outcome, g': Graph) {
    if l == own then o == Done && g' == g
    else if a !in g.waiting || g.waiting[a] != l then o == NotWaiting && g' == g
    else if l in g.holding then o == StillHeld && g' == g
    else o == Done && g' == Acquired(g, a, l)
  }

  ghost predicate ReleaseSpec(g: Graph, own: Lockable, a: Actor, l: Lockable, o: Outcome, g': Graph) {
    if l == own then o == Done && g' == g
    else if a in g.waiting then o == WaitingForSomething && g' == g
    else if Holder(g, l) != Some(a) then o == NotTheHolder && g' == g
    else o == Done && g' == Released(g, l)
  }

  datatype Call = CallWait(a: Actor, l: Lockable) | CallAcquire(a: Actor, l: Lockable) | CallRelease(a: Actor, l: Lockable)

  ghost predicate Effect(g: Graph, own: Lockable, c: Call, o: Outcome, g': Graph) {
    match c
    case CallWait(a, l) => WaitSpec(g, own, a, l, o, g')
    case CallAcquire(a, l) => AcquireSpec(g, own, a, l, o, g')
    case CallRelease(a, l) => ReleaseSpec(g, own, a, l, o, g')
  }

  /** gs is the history of the graph under a sequence of calls, all of which
      returned (a panic stops the system). */
  ghost predicate History(own: Lockable, calls: seq<Call>, gs: seq<Graph>) {
    |gs| == |calls| + 1 && gs[0] == Graph(map[], map[]) &&
    forall i :: 0 <= i < |calls| ==> Effect(gs[i], own, calls[i], Done, gs[i + 1])
  }

  lemma CallKeepsAcyclic(g: Graph, own: Lockable, c: Call, o: Outcome, g': Graph)
    requires Acyclic(g) && Effect(g, own, c, o, g')
    ensures Acyclic(g')
  {
    match c {
      case CallWait(a, l) => if a !in g.waiting { WaitClosesCycleIff(g, a, l); }
      case CallAcquire(a, l) => if l !in g.holding { AcquireKeepsAcyclic(g, a, l); }
      case CallRelease(a, l) => ReleaseKeepsAcyclic(g, l);
    }
  }

  /** Every run of waits, acquisitions and releases keeps the graph acyclic. */
  lemma {:induction false} RunsStayAcyclic(own: Lockable, calls: seq<Call>, gs: seq<Graph>)
    requires History(own, calls, gs)
    ensures Acyclic(gs[|calls|])
    decreases |calls|
  {
    if calls == [] {
      EmptyAcyclic();
    } else {
      var n := |calls| - 1;
      RunsStayAcyclic(own, calls[..n], gs[..n + 1]);
      CallKeepsAcyclic(gs[n], own, calls[n], Done, gs[n + 1]);
    }
  }

  // ----------------------------------- the graph in terms of the calls made

  /** Who holds l, from the calls alone: the last acquisition or release of it
      was an acquisition by that actor. */
  function HeldBy(calls: seq<Call>, own: Lockable, l: Lockable): Option<Actor> {
    if calls == [] || l == own then None
    else
      var c := calls[|calls| - 1];
      if c.l == l && c.CallAcquire? then Some(c.a)
      else if c.l == l && c.CallRelease? then None
      else HeldBy(calls[..|calls| - 1], own, l)
  }

  /** What a waits for: its last call, lockable own aside, was a wait for that. */
  function WaitsFor(calls: seq<Call>, own: Lockable, a: Actor): Option<Lockable> {
    if calls == [] then None
    else
      var c := calls[|calls| - 1];
      if c.a == a && c.l != own then if c.CallWait? then Some(c.l) else None
      else WaitsFor(calls[..|calls| - 1], own, a)
  }

  function WaitOf(g: Graph, a: Actor): Option<Lockable> { if a in g.waiting then Some(g.waiting[a]) else None }

  /** The recorded graph says exactly what the calls so far amount to. */
  lemma {:induction false} GraphMeansCalls(own: Lockable, calls: seq<Call>, gs: seq<Graph>)
    requires History(own, calls, gs)
    ensures forall l :: Holder(gs[|calls|], l) == HeldBy(calls, own, l)
    ensures forall a :: WaitOf(gs[|calls|], a) == WaitsFor(calls, own, a)
    decreases |calls|
  {
    if calls != [] {
      var n := |calls| - 1;
      GraphMeansCalls(own, calls[..n], gs[..n + 1]);
      var g, g', c := gs[n], gs[n + 1], calls[n];
      assert gs[..n + 1][n] == g;
      assert Effect(g, own, c, Done, g');
      forall l ensures Holder(g', l) == HeldBy(calls, own, l) { assert Holder(g, l) == HeldBy(calls[..n], own, l); }
      forall a ensures WaitOf(g', a) == WaitsFor(calls, own, a) { assert WaitOf(g, a) == WaitsFor(calls[..n], own, a); }
    }
  }

  /** By the calls made, chain is a cycle in the making: it starts with the holder
      of l, each actor waits for something that the next one holds, and a, who is
      about to wait for l, is its last. */
  ghost predicate CallCycle(calls: seq<Call>, own: Lockable, a: Actor, l: Lockable, chain: seq<Actor>) {
    chain != [] && HeldBy(calls, own, l) == Some(chain[0]) && chain[|chain| - 1] == a &&
    forall i :: 0 <= i < |chain| - 1 ==> WaitsForActor(calls, own, chain[i]) == Some(chain[i + 1])
  }

  /** Who holds what a waits for. */
  function WaitsForActor(calls: seq<Call>, own: Lockable, a: Actor): Option<Actor> {
    match WaitsFor(calls, own, a) case None => None case Some(l) => HeldBy(calls, own, l)
  }

  lemma CyclesAgree(own: Lockable, calls: seq<Call>, g: Graph, a: Actor, l: Lockable, chain: seq<Actor>)
    requires forall k :: Holder(g, k) == HeldBy(calls, own, k)
    requires forall x :: WaitOf(g, x) == WaitsFor(calls, own, x)
    ensures Closes(g, a, l, chain) <==> CallCycle(calls, own, a, l, chain)
  {
    forall x ensures Succ(g, x) == WaitsForActor(calls, own, x) {
      assert WaitOf(g, x) == WaitsFor(calls, own, x);
    }
  }

  /** A chain of waits is a path of the graph. */
  lemma {:induction false} ChainIsPath(g: Graph, chain: seq<Actor>, k: nat)
    requires k < |chain| && forall i :: 0 <= i < |chain| - 1 ==> Succ(g, chain[i]) == Some(chain[i + 1])
    ensures Steps(g, chain[0], k) == Some(chain[k])
  {
    if k > 0 {
      ChainIsPath(g, chain, k - 1);
      StepsAdd(g, chain[0], k - 1, 1);
      assert Steps(g, chain[k - 1], 1) == Succ(g, chain[k - 1]);
    }
  }

  /** After any run, what the next call ends in is decided by the calls made
      before. A wait panics for a deadlock exactly if those calls, with this wait,
      amount to a cycle of actors that wait for each other, and reports one. */
  lemma DetectsExactlyDeadlocks(own: Lockable, calls: seq<Call>, gs: seq<Graph>, a: Actor, l: Lockable, o: Outcome, g': Graph)
    requires History(own, calls, gs) && l != own && WaitSpec(gs[|calls|], own, a, l, o, g')
    ensures o == AlreadyWaiting <==> WaitsFor(calls, own, a).Some?
    ensures o.Deadlock? <==> WaitsFor(calls, own, a) == None && exists chain :: CallCycle(calls, own, a, l, chain)
    ensures o.Deadlock? ==> CallCycle(calls, own, a, l, o.chain)
    ensures o == AlreadyWaiting || o.Deadlock? || o == Done
    ensures o == AlreadyWaiting || (o.Deadlock? <==> !Acyclic(Waiting(gs[|calls|], a, l)))
  {
    var g := gs[|calls|];
    RunsStayAcyclic(own, calls, gs);
    GraphMeansCalls(own, calls, gs);
    assert WaitOf(g, a) == WaitsFor(calls, own, a);
    forall chain ensures Closes(g, a, l, chain) <==> CallCycle(calls, own, a, l, chain) {
      CyclesAgree(own, calls, g, a, l, chain);
    }
    forall chain | Closes(g, a, l, chain) ensures WouldDeadlock(g, a, l) { ChainIsPath(g, chain, |chain| - 1); }
    if a !in g.waiting { WaitClosesCycleIff(g, a, l); }
  }

  /** The same for the other calls: hangman_acquire returns exactly if the actor
      waits for the lockable and nobody holds it, hangman_release exactly if the
      actor holds it and waits for nothing. */
  lemma AcquireAndReleaseOutcomes(own: Lockable, calls: seq<Call>, gs: seq<Graph>, a: Actor, l: Lockable, o: Outcome, g': Graph)
    requires History(own, calls, gs) && l != own
    ensures AcquireSpec(gs[|calls|], own, a, l, o, g') ==>
      (o == NotWaiting <==> WaitsFor(calls, own, a) != Some(l)) &&
      (o == Done <==> WaitsFor(calls, own, a) == Some(l) && HeldBy(calls, own, l) == None) &&
      (o == NotWaiting || o == StillHeld || o == Done)
    ensures ReleaseSpec(gs[|calls|], own, a, l, o, g') ==>
      (o == WaitingForSomething <==> WaitsFor(calls, own, a).Some?) &&
      (o == Done <==> WaitsFor(calls, own, a) == None && HeldBy(calls, own, l) == Some(a)) &&
      (o == WaitingForSomething || o == NotTheHolder || o == Done)
  {
    GraphMeansCalls(own, calls, gs);
    assert WaitOf(gs[|calls|], a) == WaitsFor(calls, own, a);
    assert Holder(gs[|calls|], l) == HeldBy(calls, own, l);
  }

  lemma EmptyAcyclic()
    ensures Acyclic(Graph(map[], map[]))
  {}

  /** chain lists the actors met on the walk from h. */
  ghost predicate Follows(g: Graph, h: Actor, chain: seq<Actor>) {
    forall k :: 0 <= k < |chain| ==> Steps(g, h, k) == Some(chain[k])
  }

  lemma FollowsSucc(g: Graph, h: Actor, chain: seq<Actor>)
    requires Follows(g, h, chain)
    ensures chain != [] ==> chain[0] == h
    ensures forall i :: 0 <= i < |chain| - 1 ==> Succ(g, chain[i]) == Some(chain[i + 1])
    ensures forall i :: 0 <= i < |chain| ==> Path(g, h, chain[i])
  {
    forall i | 0 <= i < |chain| - 1 ensures Succ(g, chain[i]) == Some(chain[i + 1]) {
      StepsAdd(g, h, i, 1);
      assert Steps(g, chain[i], 1) == Succ(g, chain[i]);
    }
    if chain != [] { assert Steps(g, h, 0) == Some(chain[0]); }
  }

  /** The walk ends after chain without having met target. */
  lemma NoPathPast(g: Graph, h: Actor, chain: seq<Actor>, target: Actor)
    requires Follows(g, h, chain) && target !in chain
    requires Steps(g, h, |chain|).Some? && Steps(g, h, |chain|).value != target
    requires Succ(g, Steps(g, h, |chain|).value) == None
    ensures !Path(g, h, target)
  {
    forall m: nat ensures Steps(g, h, m) != Some(target) {
      if m > |chain| { StepsAdd(g, h, |chain|, m - |chain|); }
    }
  }

  /** On an acyclic graph the walk never comes back to an earlier actor. */
  lemma NotSeen(g: Graph, h: Actor, chain: seq<Actor>, cur: Actor)
    requires Acyclic(g) && Follows(g, h, chain) && Steps(g, h, |chain|) == Some(cur)
    ensures cur !in chain
  {
    forall k | 0 <= k < |chain| ensures chain[k] != cur {
      StepsAdd(g, h, k, |chain| - k);
    }
  }

  lemma Extend(g: Graph, h: Actor, chain: seq<Actor>, cur: Actor)
    requires Follows(g, h, chain) && Steps(g, h, |chain|) == Some(cur) && Succ(g, cur).Some?
    ensures Follows(g, h, chain + [cur])
    ensures Steps(g, h, |chain + [cur]|) == Succ(g, cur)
  {
    StepsAdd(g, h, |chain|, 1);
    assert Steps(g, cur, 1) == Succ(g, cur);
  }

  lemma Fewer(keys: set<Actor>, chain: seq<Actor>, cur: Actor)
    requires cur in keys && cur !in chain
    ensures |keys - (set x | x in chain + [cur])| < |keys - (set x | x in chain)|
  {
    var left := keys - (set x | x in chain);
    assert keys - (set x | x in chain + [cur]) == left - {cur};
    assert cur in left;
  }
}
