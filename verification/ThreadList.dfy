/** kern/thread/threadlist.c: the bookended, intrusive, doubly linked list of
    threads. The list object owns its two bookend nodes; every other node lives
    inside a thread and may be on one list at a time. */
module ThreadList {
  datatype Self = Bookend | Thread(id: nat)

  class Node {
    var next: Node?
    var prev: Node?
    const self: Self

    /** threadlistnode_init. */
    constructor (self: Self)
      ensures Detached() && this.self == self
    {
      this.next, this.prev, this.self := null, null, self;
    }

    /** Not linked on any list. */
    predicate Detached()
      reads this
    {
      next == null && prev == null
    }
  }

  /** The two links between consecutive nodes agree. */
  ghost predicate Joined(a: Node, b: Node)
    reads a, b
  {
    a.next == b && b.prev == a
  }

  class List {
    const head: Node
    const tail: Node
    var count: nat
    /** All nodes in order, the bookends included. */
    ghost var chain: seq<Node>

    /** The list as a sequence: what stands between the bookends. */
    ghost function Contents(): seq<Node>
      requires |chain| >= 2
      reads this
    {
      chain[1..|chain| - 1]
    }

    /** Forward and backward links both describe the chain, which has no node
        twice. */
    ghost predicate Linked()
      reads this, chain
    {
      |chain| >= 2 && chain[0] == head && chain[|chain| - 1] == tail &&
      (forall i, j :: 0 <= i < j < |chain| ==> chain[i] != chain[j]) &&
      head.prev == null && tail.next == null &&
      (forall i :: 0 <= i < |chain| ==> (chain[i].self == Bookend <==> i == 0 || i == |chain| - 1)) &&
      (forall i :: 0 <= i < |chain| - 1 ==> Joined(chain[i], chain[i + 1]))
    }

    ghost predicate Valid()
      reads this, chain
    {
      Linked() && count == |Contents()|
    }

    /** threadlist_init. */
    constructor ()
      ensures Valid() && Contents() == [] && fresh(chain)
    {
      var h := new Node(Bookend);
      var t := new Node(Bookend);
      h.next := t;
      t.prev := h;
      head, tail, count, chain := h, t, 0, [h, t];
    }

    method IsEmpty() returns (b: bool)
      requires Valid()
      ensures b <==> Contents() == []
    {
      b := count == 0;
    }

    /** A node with no links is not on this list. */
    lemma DetachedNotHere(n: Node)
      requires Linked() && n.Detached()
      ensures n !in chain
    {
      forall i | 0 <= i < |chain| ensures chain[i] != n {
        if i < |chain| - 1 { assert Joined(chain[i], chain[i + 1]); } else { assert Joined(chain[i - 1], chain[i]); }
      }
    }

    /** threadlist_insertafternode: links n after position i of the chain. The
        count is left to the caller. */
    method InsertAfterNode(onlist: Node, n: Node, ghost i: nat)
      requires Linked() && n.Detached() && n.self.Thread?
      requires i + 1 < |chain| && chain[i] == onlist
      modifies this`chain, chain, n
      ensures Linked() && chain == old(chain[..i + 1]) + [n] + old(chain[i + 1..])
    {
      DetachedNotHere(n);
      ghost var c := chain;
      assert Joined(c[i], c[i + 1]);
      n.prev := onlist;
      n.next := onlist.next;
      n.prev.next := n;
      n.next.prev := n;
      chain := c[..i + 1] + [n] + c[i + 1..];
      forall k | 0 <= k < |chain| - 1 ensures Joined(chain[k], chain[k + 1]) {
        if k < i { assert old(Joined(c[k], c[k + 1])); }
        if k > i + 1 { assert old(Joined(c[k - 1], c[k])); }
      }
    }

    /** threadlist_insertbeforenode: links n before position i + 1 of the chain. */
    method InsertBeforeNode(n: Node, onlist: Node, ghost i: nat)
      requires Linked() && n.Detached() && n.self.Thread?
      requires i + 1 < |chain| && chain[i + 1] == onlist
      modifies this`chain, chain, n
      ensures Linked() && chain == old(chain[..i + 1]) + [n] + old(chain[i + 1..])
    {
      DetachedNotHere(n);
      ghost var c := chain;
      assert Joined(c[i], c[i + 1]);
      n.prev := onlist.prev;
      n.next := onlist;
      n.prev.next := n;
      n.next.prev := n;
      chain := c[..i + 1] + [n] + c[i + 1..];
      forall k | 0 <= k < |chain| - 1 ensures Joined(chain[k], chain[k + 1]) {
        if k < i { assert old(Joined(c[k], c[k + 1])); }
        if k > i + 1 { assert old(Joined(c[k - 1], c[k])); }
      }
    }

    /** threadlist_removenode: unlinks position i of the chain, not a bookend, and
        clears both links of the node. */
    method RemoveNode(n: Node, ghost i: nat)
      requires Linked() && 0 < i < |chain| - 1 && chain[i] == n
      modifies this`chain, chain
      ensures Linked() && chain == old(chain[..i]) + old(chain[i + 1..]) && n.Detached()
    {
      ghost var c := chain;
      assert Joined(c[i - 1], c[i]) && Joined(c[i], c[i + 1]);
      n.prev.next := n.next;
      n.next.prev := n.prev;
      n.prev := null;
      n.next := null;
      chain := c[..i] + c[i + 1..];
      forall k | 0 <= k < |chain| - 1 ensures Joined(chain[k], chain[k + 1]) {
        if k < i - 1 { assert old(Joined(c[k], c[k + 1])); }
        if k >= i { assert old(Joined(c[k + 1], c[k + 2])); }
      }
    }
  
    method AddHead(n: Node)
      requires Valid() && n.Detached() && n.self.Thread?
      modifies this, chain, n
      ensures Valid() && Contents() == [n] + old(Contents())
      ensures chain[1] == n && forall x :: x in chain <==> x == n || x in old(chain)
    {
      InsertAfterNode(head, n, 0);
      count := count + 1;
    }

    method AddTail(n: Node)
      requires Valid() && n.Detached() && n.self.Thread?
      modifies this, chain, n
      ensures Valid() && Contents() == old(Contents()) + [n]
      ensures forall x :: x in chain <==> x == n || x in old(chain)
    {
      InsertBeforeNode(n, tail, |chain| - 2);
      count := count + 1;
    }

    /** threadlist_remhead: null exactly when the list is empty; otherwise the
        first node, with both links cleared. */
    method RemHead() returns (t: Node?)
      requires Valid()
      modifies this, chain
      ensures Valid()
      ensures t == null <==> old(Contents()) == []
      ensures t == null ==> Contents() == []
      ensures t != null ==> old(Contents()) == [t] + Contents() && t.Detached() && t.self.Thread?
      ensures if t == null then chain == old(chain) else t in old(chain) && t !in chain && forall x :: x in chain ==> x in old(chain)
    {
      assert Joined(chain[0], chain[1]);
      var n := head.next;
      if n.next == null {
        assert |chain| > 2 ==> Joined(chain[1], chain[2]);
        return null;
      }
      RemoveNode(n, 1);
      count := count - 1;
      t := n;
    }

    method RemTail() returns (t: Node?)
      requires Valid()
      modifies this, chain
      ensures Valid()
      ensures t == null <==> old(Contents()) == []
      ensures t == null ==> Contents() == []
      ensures t != null ==> old(Contents()) == Contents() + [t] && t.Detached()
    {
      assert Joined(chain[|chain| - 2], chain[|chain| - 1]);
      var n := tail.prev;
      if n.prev == null {
        assert |chain| > 2 ==> Joined(chain[|chain| - 3], chain[|chain| - 2]);
        return null;
      }
      RemoveNode(n, |chain| - 2);
      count := count - 1;
      t := n;
    }

    method InsertAfter(onlist: Node, addee: Node, ghost i: nat)
      requires Valid() && addee.Detached() && addee.self.Thread?
      requires i < |Contents()| && Contents()[i] == onlist
      modifies this, chain, addee
      ensures Valid() && Contents() == old(Contents()[..i + 1]) + [addee] + old(Contents()[i + 1..])
    {
      InsertAfterNode(onlist, addee, i + 1);
      count := count + 1;
    }

    method InsertBefore(addee: Node, onlist: Node, ghost i: nat)
      requires Valid() && addee.Detached() && addee.self.Thread?
      requires i < |Contents()| && Contents()[i] == onlist
      modifies this, chain, addee
      ensures Valid() && Contents() == old(Contents()[..i]) + [addee] + old(Contents()[i..])
    {
      InsertBeforeNode(addee, onlist, i);
      count := count + 1;
    }

    method Remove(n: Node, ghost i: nat)
      requires Valid() && i < |Contents()| && Contents()[i] == n
      modifies this, chain
      ensures Valid() && Contents() == old(Contents()[..i]) + old(Contents()[i + 1..]) && n.Detached()
    {
      RemoveNode(n, i + 1);
      count := count - 1;
    }
  }
}
