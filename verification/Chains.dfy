/** Singly linked lists kept in a table of next-pointers, with 0 for NULL. */
module Chains {
  import opened Common

  /** Following `next` from head visits exactly s and then ends. */
  ghost predicate Chain(next: map<nat, nat>, head: nat, s: seq<nat>)
    decreases |s|
  {
    if s == [] then head == 0
    else head != 0 && head == s[0] && head in next && Chain(next, next[head], s[1..])
  }

  /** A table that agrees on the members describes the same list. */
  lemma {:induction false} ChainFrame(next: map<nat, nat>, next': map<nat, nat>, head: nat, s: seq<nat>)
    requires Chain(next, head, s)
    requires forall x :: x in s && x in next ==> x in next' && next'[x] == next[x]
    ensures Chain(next', head, s)
    decreases |s|
  {
    if s != [] {
      assert forall x :: x in s[1..] ==> x in s;
      ChainFrame(next, next', next[head], s[1..]);
    }
  }

  lemma {:induction false} ChainMembers(next: map<nat, nat>, head: nat, s: seq<nat>)
    requires Chain(next, head, s)
    ensures forall x :: x in s ==> x != 0 && x in next
    decreases |s|
  {
    if s != [] {
      ChainMembers(next, next[head], s[1..]);
      assert s == [s[0]] + s[1..];
    }
  }

  /** Linking x in front. */
  lemma ChainPush(next: map<nat, nat>, head: nat, s: seq<nat>, x: nat)
    requires Chain(next, head, s) && x != 0 && x !in s
    ensures Chain(next[x := head], x, [x] + s)
  {
    ChainFrame(next, next[x := head], head, s);
    assert ([x] + s)[1..] == s;
  }

  /** The part of a list from its i-th member on. */
  lemma {:induction false} ChainSuffix(next: map<nat, nat>, head: nat, s: seq<nat>, i: nat)
    requires Chain(next, head, s) && i <= |s|
    ensures Chain(next, if i < |s| then s[i] else 0, s[i..])
    ensures i > 0 ==> s[i - 1] in next && next[s[i - 1]] == if i < |s| then s[i] else 0
    decreases |s|
  {
    if i > 0 {
      ChainSuffix(next, next[head], s[1..], i - 1);
      assert s[1..][i - 1..] == s[i..];
    }
  }

  function Without(s: seq<nat>, i: nat): seq<nat>
    requires i < |s|
  {
    s[..i] + s[i + 1..]
  }

  lemma WithoutMembers(s: seq<nat>, i: nat)
    requires i < |s| && NoDup(s)
    ensures NoDup(Without(s, i))
    ensures forall x :: x in Without(s, i) <==> x in s && x != s[i]
  {}

  /** Splicing the i-th member out, as `*guy = pr->next` does: either the head
      or the predecessor's link changes. */
  lemma {:induction false} ChainSplice(next: map<nat, nat>, head: nat, s: seq<nat>, i: nat)
    requires Chain(next, head, s) && NoDup(s) && i < |s|
    ensures s[i] in next
    ensures i == 0 ==> Chain(next, next[s[0]], Without(s, 0))
    ensures i > 0 ==> Chain(next[s[i - 1] := next[s[i]]], head, Without(s, i))
    decreases |s|
  {
    if i == 0 {
      assert Without(s, 0) == s[1..];
    } else {
      ChainSplice(next, next[head], s[1..], i - 1);
      var w := Without(s, i);
      assert s[1..][i - 1] == s[i];
      assert w[1..] == Without(s[1..], i - 1);
      var next' := next[s[i - 1] := next[s[i]]];
      if i == 1 {
        ChainFrame(next, next', next[s[1]], w[1..]);
      } else {
        assert s[1..][i - 2] == s[i - 1];
      }
    }
  }
}
