/** The runtime's doubly linked list, as the sequence of its values. */
module LinkedList {

  class Node<T> {
    const val: T
    var next: Node?<T>
    var prev: Node?<T>

    constructor (t: T)
      ensures val == t && next == null && prev == null
    {
      val, next, prev := t, null, null;
    }
  }

  datatype Links<T> = Links(next: Node?<T>, prev: Node?<T>)

  type Memory<T> = map<Node<T>, Links<T>>

  ghost function LinksOf<T>(s: set<Node<T>>): (m: Memory<T>)
    reads s
    ensures m.Keys == s
  {
    map o | o in s :: Links(o.next, o.prev)
  }

  /** The node at a place, or nil beyond the ends. */
  ghost function Nth<T>(ns: seq<Node<T>>, i: int): Node?<T> { if 0 <= i < |ns| then ns[i] else null }

  /** The node at this place is linked to its neighbours, and is at no other place. */
  ghost predicate LinkedAt<T>(m: Memory<T>, ns: seq<Node<T>>, i: int) {
    0 <= i < |ns| ==>
      && ns[i] in m && m[ns[i]] == Links(Nth(ns, i + 1), Nth(ns, i - 1))
      && forall j :: 0 <= j < |ns| && ns[j] == ns[i] ==> j == i
  }

  ghost predicate AllIn<T>(ns: seq<Node<T>>, m: Memory<T>) { forall n :: n in ns ==> n in m }

  /** The links run through these nodes, forward and back, and nowhere else. */
  ghost predicate Linked<T>(m: Memory<T>, ns: seq<Node<T>>) {
    AllIn(ns, m) && forall i {:trigger LinkedAt(m, ns, i)} :: LinkedAt(m, ns, i)
  }

  ghost function Values<T>(ns: seq<Node<T>>): (s: seq<T>) { seq(|ns|, i requires 0 <= i < |ns| => ns[i].val) }

  // ----- walks along the links -----

  /** Following `next`, for a number of nodes at most. */
  ghost function Forward<T>(m: Memory<T>, n: Node?<T>, steps: nat): seq<T> {
    if n == null || n !in m || steps == 0 then [] else [n.val] + Forward(m, m[n].next, steps - 1)
  }

  /** Following `prev`, for a number of nodes at most. */
  ghost function Backward<T>(m: Memory<T>, n: Node?<T>, steps: nat): seq<T> {
    if n == null || n !in m || steps == 0 then [] else Backward(m, m[n].prev, steps - 1) + [n.val]
  }

  lemma {:induction false} ForwardFrom<T>(m: Memory<T>, ns: seq<Node<T>>, i: nat, steps: nat)
    requires Linked(m, ns) && i <= |ns| && steps >= |ns| - i
    ensures Forward(m, Nth(ns, i), steps) == Values(ns)[i..]
    decreases |ns| - i
  {
    if i < |ns| {
      ForwardFrom(m, ns, i + 1, steps - 1);
      assert LinkedAt(m, ns, i);
      assert Values(ns)[i..] == [ns[i].val] + Values(ns)[i + 1..];
    }
  }

  lemma {:induction false} BackwardFrom<T>(m: Memory<T>, ns: seq<Node<T>>, i: nat, steps: nat)
    requires Linked(m, ns) && i <= |ns| && steps >= i
    ensures Backward(m, Nth(ns, i - 1), steps) == Values(ns)[..i]
    decreases i
  {
    if i > 0 {
      BackwardFrom(m, ns, i - 1, steps - 1);
      assert LinkedAt(m, ns, i - 1);
      assert Values(ns)[..i] == Values(ns)[..i - 1] + [ns[i - 1].val];
    }
  }

  // ----- what updates of the links do -----

  ghost function Without<X>(s: seq<X>, k: nat): seq<X>
    requires k < |s|
  {
    s[..k] + s[k + 1..]
  }

  /** The links after the neighbours of a place have been linked to each other. */
  ghost function Bridged<T>(m: Memory<T>, ns: seq<Node<T>>, k: nat): Memory<T>
    requires k < |ns| && AllIn(ns, m)
  {
    var m1 := if k > 0 then m[ns[k - 1] := m[ns[k - 1]].(next := Nth(ns, k + 1))] else m;
    if k + 1 < |ns| then m1[ns[k + 1] := m1[ns[k + 1]].(prev := Nth(ns, k - 1))] else m1
  }

  lemma RemovedLinked<T>(m: Memory<T>, ns: seq<Node<T>>, k: nat)
    requires Linked(m, ns) && k < |ns|
    ensures Linked(Bridged(m, ns, k), Without(ns, k))
    ensures Values(Without(ns, k)) == Without(Values(ns), k)
  {
    var ns', m' := Without(ns, k), Bridged(m, ns, k);
    forall i | 0 <= i < |ns'| ensures LinkedAt(m', ns', i) {
      var j := if i < k then i else i + 1;
      WithoutNth(ns, k, i);
      WithoutNth(ns, k, i - 1);
      WithoutNth(ns, k, i + 1);
      assert LinkedAt(m, ns, j) && LinkedAt(m, ns, k - 1) && LinkedAt(m, ns, k + 1);
      forall i2 | 0 <= i2 < |ns'| && ns'[i2] == ns'[i] ensures i2 == i { WithoutNth(ns, k, i2); }
    }
    assert forall n :: n in ns' ==> n in ns;
    assert forall i :: 0 <= i < |ns'| ==> Values(ns')[i] == Without(Values(ns), k)[i];
  }

  lemma WithoutNth<T>(ns: seq<Node<T>>, k: nat, i: int)
    requires k < |ns|
    ensures |Without(ns, k)| == |ns| - 1 && Nth(Without(ns, k), i) == Nth(ns, if i < k then i else i + 1)
  {
  }

  lemma AppendedLinked<T>(m: Memory<T>, m': Memory<T>, ns: seq<Node<T>>, n: Node<T>)
    requires Linked(m, ns) && n !in ns
    requires m' == (if ns == [] then m
      else m[ns[|ns| - 1] := m[ns[|ns| - 1]].(next := n)])[n := Links(null, Nth(ns, |ns| - 1))]
    ensures Linked(m', ns + [n]) && Values(ns + [n]) == Values(ns) + [n.val]
  {
    forall i ensures LinkedAt(m', ns + [n], i) {
      assert LinkedAt(m, ns, i) && LinkedAt(m, ns, |ns| - 1);
    }
  }

  lemma PrependedLinked<T>(m: Memory<T>, m': Memory<T>, ns: seq<Node<T>>, n: Node<T>)
    requires Linked(m, ns) && n !in ns
    requires m' == (if ns == [] then m else m[ns[0] := m[ns[0]].(prev := n)])[n := Links(Nth(ns, 0), null)]
    ensures Linked(m', [n] + ns) && Values([n] + ns) == [n.val] + Values(ns)
  {
    forall i ensures LinkedAt(m', [n] + ns, i) {
      assert LinkedAt(m, ns, i - 1) && LinkedAt(m, ns, 0);
    }
  }

  class List<T> {
    var first: Node?<T>
    var tail: Node?<T>
    var len: int
    ghost var nodes: seq<Node<T>>
    /** The nodes made by this list; removed ones stay. */
    ghost var made: set<Node<T>>

    ghost predicate Valid()
      reads this, made
    {
      && Linked(LinksOf(made), nodes) && len == |nodes|
      && first == Nth(nodes, 0) && tail == Nth(nodes, |nodes| - 1)
    }

    ghost function Contents(): seq<T>
      reads this
    {
      Values(nodes)
    }

    constructor ()
      ensures Valid() && Contents() == []
    {
      first, tail, len, nodes, made := null, null, 0, [], {};
    }

    /** The walks along the links from either end both give the contents. */
    lemma WalksAgree(steps: nat)
      requires Valid() && steps >= len
      ensures Forward(LinksOf(made), first, steps) == Contents() && Backward(LinksOf(made), tail, steps) == Contents()
    {
      ForwardFrom(LinksOf(made), nodes, 0, steps);
      BackwardFrom(LinksOf(made), nodes, |nodes|, steps);
      assert Contents()[0..] == Contents() == Contents()[..|nodes|];
    }

    method UnShift(t: T)
      requires Valid()
      modifies this, made
      ensures Valid() && Contents() == [t] + old(Contents())
    {
      hide LinkedAt, Values;
      ghost var m, ns := LinksOf(made), nodes;
      len := len + 1;
      var n := new Node(t);
      assert first != null ==> first in made by { assert AllIn(nodes, m); }
      made, nodes := made + {n}, [n] + nodes;
      if first == null {
        first, tail := n, n;
        PrependedLinked(m, LinksOf(made), ns, n);
        return;
      }
      n.next := first;
      first.prev := n;
      first := n;
      PrependedLinked(m, LinksOf(made), ns, n);
    }

    method Push(t: T)
      requires Valid()
      modifies this, made
      ensures Valid() && Contents() == old(Contents()) + [t]
    {
      hide LinkedAt, Values;
      ghost var m, ns := LinksOf(made), nodes;
      len := len + 1;
      var n := new Node(t);
      assert tail != null ==> tail in made by { assert AllIn(nodes, m); }
      made, nodes := made + {n}, nodes + [n];
      if first == null {
        first, tail := n, n;
      } else {
        tail.next := n;
        n.prev := tail;
        tail := n;
      }
      AppendedLinked(m, LinksOf(made), ns, n);
    }

    /** The walk ends, at the right node, for every index in range. */
    method IndexOp(index: int) returns (t: T)
      requires Valid() && 0 <= index < len
      ensures t == Contents()[index]
    {
      var i := 0;
      var n := first;
      while i != index
        invariant 0 <= i <= index && n == nodes[i]
        decreases index - i
      {
        assert LinkedAt(LinksOf(made), nodes, i);
        n := n.next;
        i := i + 1;
      }
      return n.val;
    }

    /** remove: takes a node out of the list, wherever it stands. */
    method Remove(n: Node<T>, ghost k: nat)
      requires Valid() && k < |nodes| && nodes[k] == n
      modifies this, made
      ensures Valid() && nodes == old(Without(nodes, k)) && Contents() == old(Without(Contents(), k))
    {
      hide Linked, Values, Bridged;
      ghost var m, ns := LinksOf(made), nodes;
      RemovedLinked(m, ns, k);
      Unhook(n, k);
      nodes := Without(ns, k);
    }

    /** The updates of remove. */
    method Unhook(n: Node<T>, ghost k: nat)
      requires Valid() && k < |nodes| && nodes[k] == n
      modifies this`first, this`tail, this`len, made
      ensures len == old(len) - 1 && LinksOf(made) == old(Bridged(LinksOf(made), nodes, k))
      ensures first == (if k == 0 then Nth(nodes, 1) else old(first))
        && tail == (if k == |nodes| - 1 then Nth(nodes, k - 1) else old(tail))
    {
      assert LinkedAt(LinksOf(made), nodes, k);
      hide Linked;
      len := len - 1;
      if n.prev == null && n.next == null {
        first, tail := null, null;
      } else if n.prev == null {
        first := n.next;
        n.next.prev := null;
      } else if n.next == null {
        tail := n.prev;
        tail.next := null;
      } else {
        n.prev.next := n.next;
        n.next.prev := n.prev;
      }
    }

    method Shift() returns (t: T)
      requires Valid() && len > 0
      modifies this, made
      ensures Valid() && old(Contents()) == [t] + Contents()
    {
      var n := first;
      t := n.val;
      Remove(n, 0);
    }

    method Pop() returns (t: T)
      requires Valid() && len > 0
      modifies this, made
      ensures Valid() && old(Contents()) == Contents() + [t]
    {
      var n := tail;
      Remove(n, |nodes| - 1);
      return n.val;
    }
  }
}
