/** The splay tree operations over linked nodes. */
module SplayTree {
  import opened SplayMemory

  ghost predicate Sorted(s: seq<Node>) { forall i, j :: 0 <= i < j < |s| ==> s[i].key < s[j].key }

  ghost predicate AllBelow(s: seq<Node>, key: int) { forall n :: n in s ==> n.key < key }

  ghost predicate AllAbove(s: seq<Node>, key: int) { forall n :: n in s ==> key < n.key }

  /** The root has the key, or is the last node before its place, or the first after it. */
  ghost predicate Close(t: Shape, key: int) {
    t.Bin? && (key < t.n.key ==> AllBelow(InOrder(t.l), key)) && (key > t.n.key ==> AllAbove(InOrder(t.r), key))
  }

  ghost predicate Inserted(s: seq<Node>, e: Node, s': seq<Node>) {
    Sorted(s') && exists k :: 0 <= k <= |s| && s' == s[..k] + [e] + s[k..]
  }

  /** `s'` is `s` without its one node that has the key. */
  ghost predicate KeyRemoved(s: seq<Node>, key: int, s': seq<Node>) {
    Sorted(s') && exists k :: 0 <= k < |s| && s[k].key == key && s' == s[..k] + s[k + 1..]
  }

  ghost predicate Below(a: seq<Node>, b: seq<Node>) { forall x, y :: x in a && y in b ==> x.key < y.key }

  lemma Joined(a: seq<Node>, b: seq<Node>)
    ensures Sorted(a + b) <==> Sorted(a) && Sorted(b) && Below(a, b)
  {
    var s := a + b;
    if Sorted(s) {
      forall i, j | 0 <= i < j < |a| ensures a[i].key < a[j].key { assert s[i].key < s[j].key; }
      forall i, j | 0 <= i < j < |b| ensures b[i].key < b[j].key { assert s[|a| + i].key < s[|a| + j].key; }
      forall x, y | x in a && y in b ensures x.key < y.key {
        var i :| 0 <= i < |a| && a[i] == x;
        var j :| 0 <= j < |b| && b[j] == y;
        assert s[i].key < s[|a| + j].key;
      }
    }
  }

  lemma InsertedBetween(a: seq<Node>, e: Node, b: seq<Node>)
    requires Sorted(a + b) && AllBelow(a, e.key) && AllAbove(b, e.key)
    ensures Inserted(a + b, e, a + [e] + b)
  {
    Joined(a, b);
    Joined(a, [e]);
    Joined(a + [e], b);
    assert (a + b)[..|a|] == a && (a + b)[|a|..] == b;
  }

  lemma RemovedBetween(a: seq<Node>, e: Node, b: seq<Node>)
    requires Sorted(a + [e] + b)
    ensures KeyRemoved(a + [e] + b, e.key, a + b)
  {
    Joined(a + [e], b);
    Joined(a, [e]);
    Joined(a, b);
    assert (a + [e] + b)[|a|] == e && (a + [e] + b)[..|a|] == a && (a + [e] + b)[|a| + 1..] == b;
  }

  /** In sorted order, what comes before a node is below its key and what comes after is above. */
  lemma Around(a: seq<Node>, e: Node, b: seq<Node>)
    requires Sorted(a + [e] + b)
    ensures AllBelow(a, e.key) && AllAbove(b, e.key) && Sorted(a) && Sorted(b)
  {
    Joined(a + [e], b);
    Joined(a, [e]);
    assert e in [e] && e in a + [e];
  }

  lemma AboveJoined(n: Node, b: seq<Node>, key: int)
    requires key < n.key && AllAbove(b, n.key)
    ensures AllAbove([n] + b, key)
  {
  }

  lemma BelowJoined(a: seq<Node>, n: Node, key: int)
    requires n.key < key && AllBelow(a, n.key)
    ensures AllBelow(a + [n], key)
  {
  }

  lemma AsideRight(l: Spine, t: Shape, r: Spine, key: int)
    requires t.Bin? && AllBelow(FlatL(l), key) && AllAbove(FlatR(r), key) && Sorted(Line(l, t, r)) && key < t.n.key
    ensures AllAbove(FlatR(Snoc(r, t.r, t.n)), key)
  {
    hide Sorted, AllBelow, AllAbove;
    var a, b := FlatL(l) + InOrder(t.l), InOrder(t.r) + FlatR(r);
    assert InOrder(t) == InOrder(t.l) + [t.n] + InOrder(t.r);
    AssembledOrder(FlatL(l), InOrder(t.l), t.n, InOrder(t.r), FlatR(r));
    Around(a, t.n, b);
    AboveJoined(t.n, b, key);
    assert FlatR(Snoc(r, t.r, t.n)) == [t.n] + InOrder(t.r) + FlatR(r) == [t.n] + b;
  }

  lemma AsideLeft(l: Spine, t: Shape, r: Spine, key: int)
    requires t.Bin? && AllBelow(FlatL(l), key) && AllAbove(FlatR(r), key) && Sorted(Line(l, t, r)) && key > t.n.key
    ensures AllBelow(FlatL(Snoc(l, t.l, t.n)), key)
  {
    hide Sorted, AllBelow, AllAbove;
    var a, b := FlatL(l) + InOrder(t.l), InOrder(t.r) + FlatR(r);
    assert InOrder(t) == InOrder(t.l) + [t.n] + InOrder(t.r);
    AssembledOrder(FlatL(l), InOrder(t.l), t.n, InOrder(t.r), FlatR(r));
    Around(a, t.n, b);
    BelowJoined(a, t.n, key);
    assert FlatL(Snoc(l, t.l, t.n)) == a + [t.n];
  }

  lemma AssembledClose(l: Spine, t: Shape, r: Spine, key: int)
    requires t.Bin? && AllBelow(FlatL(l), key) && AllAbove(FlatR(r), key)
    requires key == t.n.key || (key < t.n.key && t.l.Leaf?) || (key > t.n.key && t.r.Leaf?)
    ensures Close(Assembled(l, t, r), key)
  {
    FillLOrder(l, t.l);
    FillROrder(r, t.r);
  }

  ghost function Size(t: Shape): nat { if t.Leaf? then 0 else Size(t.l) + 1 + Size(t.r) }

  class Tree {
    var root: Node?
    ghost var shape: Shape

    /** A search tree in key order, linked through all its nodes. */
    ghost predicate Valid()
      reads this, Nodes(shape)
    {
      root == Ptr(shape) && Distinct(shape) && Shaped(FieldsOf(Nodes(shape)), shape) && Sorted(Contents())
    }

    ghost function Contents(): seq<Node>
      reads this
    {
      InOrder(shape)
    }

    constructor ()
      ensures Valid() && Contents() == []
    {
      root, shape := null, Leaf;
    }

    static method PutLeft(x: Node, v: Node?, ghost s: set<Node>)
      requires x in s
      modifies x`left
      ensures x.left == v && FieldsOf(s) == old(FieldsOf(s)[x := FieldsOf(s)[x].(left := v)])
    {
      x.left := v;
    }

    static method PutRight(x: Node, v: Node?, ghost s: set<Node>)
      requires x in s
      modifies x`right
      ensures x.right == v && FieldsOf(s) == old(FieldsOf(s)[x := FieldsOf(s)[x].(right := v)])
    {
      x.right := v;
    }

    /** SPLAY_ROTATE_RIGHT */
    method RotateRight(tmp: Node, ghost key: int, ghost s: set<Node>, ghost header: Node, ghost m0: Memory,
            ghost t0: Shape, ghost l: Spine, ghost t: Shape, ghost r: Spine)
      requires root == Ptr(t) && Splaying(key, header, m0, FieldsOf(s), t0, l, t, r) && t.Bin? && t.l.Bin?
        && tmp == t.l.n
      modifies this`root, s
      ensures Size(RotR(t)) == Size(t) && root == Ptr(RotR(t))
        && Splaying(key, header, m0, FieldsOf(s), t0, l, RotR(t), r)
    {
      hide Rig, RigNodes, Line, Nodes, Sorted, AllBelow, AllAbove;
      ghost var m := FieldsOf(s);
      RootFields(key, header, m0, m, t0, l, t, r);
      PutLeft(root, tmp.right, s);
      PutRight(tmp, root, s);
      root := tmp;
      RotatedRight(m, FieldsOf(s), header, l, t, r);
      TreeInRig(l, t, r);
      Onward(key, header, m0, m, FieldsOf(s), t0, l, t, r, l, RotR(t), r);
    }

    /** SPLAY_ROTATE_LEFT */
    method RotateLeft(tmp: Node, ghost key: int, ghost s: set<Node>, ghost header: Node, ghost m0: Memory,
            ghost t0: Shape, ghost l: Spine, ghost t: Shape, ghost r: Spine)
      requires root == Ptr(t) && Splaying(key, header, m0, FieldsOf(s), t0, l, t, r) && t.Bin? && t.r.Bin?
        && tmp == t.r.n
      modifies this`root, s
      ensures Size(RotL(t)) == Size(t) && root == Ptr(RotL(t))
        && Splaying(key, header, m0, FieldsOf(s), t0, l, RotL(t), r)
    {
      hide Rig, RigNodes, Line, Nodes, Sorted, AllBelow, AllAbove;
      ghost var m := FieldsOf(s);
      RootFields(key, header, m0, m, t0, l, t, r);
      PutRight(root, tmp.left, s);
      PutLeft(tmp, root, s);
      root := tmp;
      RotatedLeft(m, FieldsOf(s), header, l, t, r);
      TreeInRig(l, t, r);
      Onward(key, header, m0, m, FieldsOf(s), t0, l, t, r, l, RotL(t), r);
    }

    /** SPLAY_LINKLEFT: the root joins the right spine and its left tree comes into focus. */
    method LinkLeft(tmp: Node, ghost key: int, ghost s: set<Node>, ghost header: Node, ghost m0: Memory,
            ghost t0: Shape, ghost l: Spine, ghost t: Shape, ghost r: Spine) returns (last: Node)
      requires root == Ptr(t) && Splaying(key, header, m0, FieldsOf(s), t0, l, t, r)
      requires t.Bin? && t.l.Bin? && tmp == Last(r, header) && key < t.n.key
      modifies this`root, s
      ensures last == t.n && root == Ptr(t.l) && Splaying(key, header, m0, FieldsOf(s), t0, l, t.l, Snoc(r, t.r, t.n))
    {
      hide Rig, RigNodes, Nodes, FlatL, FlatR, Line, Sorted, AllBelow, AllAbove;
      ghost var m := FieldsOf(s);
      RootFields(key, header, m0, m, t0, l, t, r);
      PutLeft(tmp, root, s);
      last := root;
      root := root.left;
      LinkedLeft(m, FieldsOf(s), header, l, t, r);
      LastInRig(m, header, l, t, r);
      AsideRight(l, t, r, key);
      Onward(key, header, m0, m, FieldsOf(s), t0, l, t, r, l, t.l, Snoc(r, t.r, t.n));
    }

    /** SPLAY_LINKRIGHT: the root joins the left spine and its right tree comes into focus. */
    method LinkRight(tmp: Node, ghost key: int, ghost s: set<Node>, ghost header: Node, ghost m0: Memory,
            ghost t0: Shape, ghost l: Spine, ghost t: Shape, ghost r: Spine) returns (last: Node)
      requires root == Ptr(t) && Splaying(key, header, m0, FieldsOf(s), t0, l, t, r)
      requires t.Bin? && t.r.Bin? && tmp == Last(l, header) && key > t.n.key
      modifies this`root, s
      ensures last == t.n && root == Ptr(t.r) && Splaying(key, header, m0, FieldsOf(s), t0, Snoc(l, t.l, t.n), t.r, r)
    {
      hide Rig, RigNodes, Nodes, FlatL, FlatR, Line, Sorted, AllBelow, AllAbove;
      ghost var m := FieldsOf(s);
      RootFields(key, header, m0, m, t0, l, t, r);
      PutRight(tmp, root, s);
      last := root;
      root := root.right;
      LinkedRight(m, FieldsOf(s), header, l, t, r);
      LastInRig(m, header, l, t, r);
      AsideLeft(l, t, r, key);
      Onward(key, header, m0, m, FieldsOf(s), t0, l, t, r, Snoc(l, t.l, t.n), t.r, r);
    }

    method AssembleFields(node: Node, left: Node, right: Node, ghost s: set<Node>)
      requires root != null && root in s && node in s && left in s && right in s && root != node && root != left
        && root != right
      modifies s
      ensures var m := old(FieldsOf(s)); var m1 := m[left := m[left].(right := old(root.left))];
        var m2 := m1[right := m1[right].(left := old(root.right))];
        FieldsOf(s) == m2[root := Fields(m2[node].right, m2[node].left)]
    {
      PutRight(left, root.left, s);
      PutLeft(right, root.right, s);
      PutLeft(root, node.right, s);
      PutRight(root, node.left, s);
    }

    /** SPLAY_ASSEMBLE: the root's trees fill the holes and the spines become its trees. */
    method Assemble(node: Node, left: Node, right: Node, ghost key: int, ghost s: set<Node>, ghost header: Node,
            ghost m0: Memory, ghost t0: Shape, ghost l: Spine, ghost t: Shape, ghost r: Spine)
      requires root == Ptr(t) && Splaying(key, header, m0, FieldsOf(s), t0, l, t, r)
      requires t.Bin? && node == header && left == Last(l, header) && right == Last(r, header)
      requires key == t.n.key || (key < t.n.key && t.l.Leaf?) || (key > t.n.key && t.r.Leaf?)
      modifies s
      ensures var f := Assembled(l, t, r);
        && Shaped(FieldsOf(s), f) && Distinct(f) && Nodes(f) == Nodes(t0) && InOrder(f) == InOrder(t0) && Close(f, key)
      ensures SameOutside(m0, FieldsOf(s), Nodes(t0) + {header})
    {
      hide Rig, RigNodes, Nodes, FlatL, FlatR, FillL, FillR, InOrder, Line, Sorted, AllBelow, AllAbove, Shaped,
        Distinct, Close;
      ghost var m := FieldsOf(s);
      RootFields(key, header, m0, m, t0, l, t, r);
      LastInRig(m, header, l, t, r);
      AssembleFields(node, left, right, s);
      AssembledShaped(m, FieldsOf(s), header, l, t, r);
      AssembledClose(l, t, r, key);
    }

    /** SPLAY: brings the key, or a neighbour of its place, to the root; the order stays. */
    method Splay(key: int, ghost s: set<Node>, ghost t0: Shape) returns (ghost f: Shape)
      requires t0.Bin? && root == Ptr(t0) && Nodes(t0) <= s && Distinct(t0) && Shaped(FieldsOf(s), t0)
        && Sorted(InOrder(t0))
      modifies this`root, s
      ensures root == Ptr(f) && Distinct(f) && Shaped(FieldsOf(s), f)
      ensures Nodes(f) == Nodes(t0) && InOrder(f) == InOrder(t0) && Close(f, key)
      ensures SameOutside(old(FieldsOf(s)), FieldsOf(s), Nodes(t0))
    {
      hide Shaped, Distinct, Nodes, InOrder, Sorted, SameOutside, Splaying, Close, RigNodes, Line, Rig, Size;
      var node := new Node(0);
      var left, right := node, node;
      ghost var s1, l, t, r := s + {node}, Nil, t0, Nil;
      ghost var mOld, m0 := FieldsOf(s), FieldsOf(s1);
      SplayBegins(key, mOld, m0, node, t0);
      while key != root.key
        invariant root == Ptr(t) && t.Bin? && left == Last(l, node) && right == Last(r, node)
        invariant Splaying(key, node, m0, FieldsOf(s1), t0, l, t, r)
        decreases Size(t)
      {
        if key < root.key {
          var tmp := root.left;
          RootFields(key, node, m0, FieldsOf(s1), t0, l, t, r);
          if tmp == null { break; }
          if key < tmp.key {
            RotateRight(tmp, key, s1, node, m0, t0, l, t, r);
            t := RotR(t);
            RootFields(key, node, m0, FieldsOf(s1), t0, l, t, r);
            if root.left == null { break; }
          }
          right := LinkLeft(right, key, s1, node, m0, t0, l, t, r);
          t, r := t.l, Snoc(r, t.r, t.n);
        } else if key > root.key {
          var tmp := root.right;
          RootFields(key, node, m0, FieldsOf(s1), t0, l, t, r);
          if tmp == null { break; }
          if key > tmp.key {
            RotateLeft(tmp, key, s1, node, m0, t0, l, t, r);
            t := RotL(t);
            RootFields(key, node, m0, FieldsOf(s1), t0, l, t, r);
            if root.right == null { break; }
          }
          left := LinkRight(left, key, s1, node, m0, t0, l, t, r);
          t, l := t.r, Snoc(l, t.l, t.n);
        }
      }
      Assemble(node, left, right, key, s1, node, m0, t0, l, t, r);
      f := Assembled(l, t, r);
      SplayEnds(mOld, m0, FieldsOf(s), FieldsOf(s1), node, t0, f);
    }

    /** SPLAY_MINMAX: brings the first node (negative argument) or the last (positive) to
        the root; as when splaying for a key before or after all of them. */
    method SplayMinMax(comp: int, ghost s: set<Node>, ghost t0: Shape) returns (ghost f: Shape)
      requires comp != 0
      requires t0.Bin? && root == Ptr(t0) && Nodes(t0) <= s && Distinct(t0) && Shaped(FieldsOf(s), t0)
        && Sorted(InOrder(t0))
      modifies this`root, s
      ensures root == Ptr(f) && Distinct(f) && Shaped(FieldsOf(s), f)
      ensures Nodes(f) == Nodes(t0) && InOrder(f) == InOrder(t0) && Close(f, Beyond(comp, t0))
      ensures SameOutside(old(FieldsOf(s)), FieldsOf(s), Nodes(t0))
    {
      hide Shaped, Distinct, Nodes, InOrder, Sorted, SameOutside, Splaying, Close, RigNodes, Line, Rig, Size, Beyond;
      var node := new Node(0);
      var left, right := node, node;
      ghost var key := Beyond(comp, t0);
      ghost var s1, l, t, r := s + {node}, Nil, t0, Nil;
      ghost var mOld, m0 := FieldsOf(s), FieldsOf(s1);
      SplayBegins(key, mOld, m0, node, t0);
      while true
        invariant root == Ptr(t) && t.Bin? && left == Last(l, node) && right == Last(r, node)
        invariant Splaying(key, node, m0, FieldsOf(s1), t0, l, t, r)
        decreases Size(t)
      {
        if comp < 0 {
          var tmp := root.left;
          BeyondAll(comp, key, node, m0, FieldsOf(s1), t0, l, t, r);
          if tmp == null { break; }
          if comp < 0 {
            RotateRight(tmp, key, s1, node, m0, t0, l, t, r);
            t := RotR(t);
            BeyondAll(comp, key, node, m0, FieldsOf(s1), t0, l, t, r);
            if root.left == null { break; }
          }
          right := LinkLeft(right, key, s1, node, m0, t0, l, t, r);
          t, r := t.l, Snoc(r, t.r, t.n);
        } else if comp > 0 {
          var tmp := root.right;
          BeyondAll(comp, key, node, m0, FieldsOf(s1), t0, l, t, r);
          if tmp == null { break; }
          if comp > 0 {
            RotateLeft(tmp, key, s1, node, m0, t0, l, t, r);
            t := RotL(t);
            BeyondAll(comp, key, node, m0, FieldsOf(s1), t0, l, t, r);
            if root.right == null { break; }
          }
          left := LinkRight(left, key, s1, node, m0, t0, l, t, r);
          t, l := t.r, Snoc(l, t.l, t.n);
        }
      }
      Assemble(node, left, right, key, s1, node, m0, t0, l, t, r);
      f := Assembled(l, t, r);
      SplayEnds(mOld, m0, FieldsOf(s), FieldsOf(s1), node, t0, f);
    }

    /** SPLAY_MIN and SPLAY_MAX: null for an empty tree, else the first or the last node. */
    method MinMax(comp: int) returns (end: Node?)
      requires Valid() && comp != 0
      modifies this, Nodes(shape)
      ensures Valid() && Contents() == old(Contents())
      ensures end == if Contents() == [] then null else if comp < 0 then Contents()[0] else Contents()[|Contents()| - 1]
    {
      hide Distinct, Shaped, Sorted, Close, InOrder, Beyond;
      NoneInLeaf();
      if root == null { return null; }
      RootListed(shape);
      ghost var f := SplayMinMax(comp, Nodes(shape), shape);
      Outermost(comp, shape, f);
      shape := f;
      return root;
    }

    /** A splay of the whole tree. */
    method SplayAll(key: int)
      requires Valid() && root != null
      modifies this, Nodes(shape)
      ensures Valid() && Contents() == old(Contents()) && Nodes(shape) == old(Nodes(shape))
      ensures shape.Bin? && root == shape.n && root in Contents() && Close(shape, key)
    {
      hide Distinct, Shaped, Sorted, Close;
      ghost var f := Splay(key, Nodes(shape), shape);
      shape := f;
      assert InOrder(shape)[|InOrder(shape.l)|] == shape.n;
    }

    /** SPLAY_FIND: the node with the key, or null when there is none; the order stays. */
    method Find(key: int) returns (found: Node?)
      requires Valid()
      modifies this, Nodes(shape)
      ensures Valid() && Contents() == old(Contents()) && Nodes(shape) == old(Nodes(shape))
      ensures found != null ==> found in Contents() && found.key == key
      ensures found == null ==> forall n :: n in Contents() ==> n.key != key
    {
      if root == null { return null; }
      SplayAll(key);
      if key == root.key { return root; }
      Absent(shape, key);
      return null;
    }

    /** SPLAY_INSERT: returns the node that already has the key, the argument itself if that is
        linked already, and keeps the contents, or puts the new node at its place in the order
        and returns null. */
    method Insert(elm: Node) returns (existing: Node?)
      requires Valid()
      modifies this, Nodes(shape), elm
      ensures Valid()
      ensures existing != null ==> existing in Contents() && existing.key == elm.key && Contents() == old(Contents())
      ensures existing == null ==> Inserted(old(Contents()), elm, Contents()) && elm !in old(Contents())
      ensures elm in old(Contents()) ==> existing == elm
    {
      hide Distinct, Shaped, Sorted, Close, InOrder;
      ghost var s := Nodes(shape) + {elm};
      ghost var u;
      if root == null {
        NoneInLeaf();
        elm.left, elm.right := null, null;
        u := Bin(Leaf, elm, Leaf);
        Alone(FieldsOf(s), elm);
        assert Nodes(u) == s;
      } else {
        SplayAll(elm.key);
        if elm.key == root.key {
          OneForKey(Contents(), root, elm);
          return root;
        }
        NotLinked(elm);
        u := HangAbove(elm, s);
      }
      root := elm;
      shape := u;
      return null;
    }

    /** Makes `elm` the root over the splayed tree, on the side its key says. */
    method HangAbove(elm: Node, ghost s: set<Node>) returns (ghost u: Shape)
      requires Valid() && shape.Bin? && root == shape.n && Close(shape, elm.key) && elm.key != root.key
      requires elm !in Nodes(shape) && s == Nodes(shape) + {elm}
      modifies s
      ensures u.Bin? && u.n == elm && Distinct(u) && Shaped(FieldsOf(s), u) && Nodes(u) == s
        && Inserted(Contents(), elm, InOrder(u))
    {
      hide Distinct, Shaped, Sorted, Close, InOrder, Inserted;
      if elm.key < root.key { u := HangLeft(elm, s); } else { u := HangRight(elm, s); }
    }

    /** After a splay for its key, a node with another key than the root's is not in the tree. */
    lemma NotLinked(elm: Node)
      requires Valid() && shape.Bin? && root == shape.n && Close(shape, elm.key)
      ensures elm.key != root.key ==> elm !in Nodes(shape) && elm !in Contents()
    {
      InOrderNodes(shape);
      if elm.key != root.key { Absent(shape, elm.key); }
    }

    method HangLeft(elm: Node, ghost s: set<Node>) returns (ghost u: Shape)
      requires Valid() && shape.Bin? && Close(shape, elm.key) && elm.key < root.key
      requires elm !in Nodes(shape) && s == Nodes(shape) + {elm}
      modifies s
      ensures u.Bin? && u.n == elm && Distinct(u) && Shaped(FieldsOf(s), u) && Nodes(u) == s
        && Inserted(Contents(), elm, InOrder(u))
    {
      ghost var Bin(l, x, r) := shape;
      ghost var m := FieldsOf(s);
      ShapedFrame(FieldsOf(Nodes(shape)), m, shape);
      u := Bin(l, elm, Bin(Leaf, x, r));
      hide Distinct, Sorted, Close, InOrder, Inserted;
      assert m[x].left == Ptr(l);
      PutLeft(elm, root.left, s);
      PutRight(elm, root, s);
      PutLeft(root, null, s);
      HungLeft(m, FieldsOf(s), l, x, r, elm);
    }

    method HangRight(elm: Node, ghost s: set<Node>) returns (ghost u: Shape)
      requires Valid() && shape.Bin? && Close(shape, elm.key) && elm.key > root.key
      requires elm !in Nodes(shape) && s == Nodes(shape) + {elm}
      modifies s
      ensures u.Bin? && u.n == elm && Distinct(u) && Shaped(FieldsOf(s), u) && Nodes(u) == s
        && Inserted(Contents(), elm, InOrder(u))
    {
      ghost var Bin(l, x, r) := shape;
      ghost var m := FieldsOf(s);
      ShapedFrame(FieldsOf(Nodes(shape)), m, shape);
      u := Bin(Bin(l, x, Leaf), elm, r);
      hide Distinct, Sorted, Close, InOrder, Inserted;
      assert m[x].right == Ptr(r);
      PutRight(elm, root.right, s);
      PutLeft(elm, root, s);
      PutRight(root, null, s);
      HungRight(m, FieldsOf(s), l, x, r, elm);
    }

    lemma RootAndParts()
      requires Valid() && shape.Bin?
      ensures root.left == Ptr(shape.l) && root.right == Ptr(shape.r)
      ensures Nodes(shape.r) <= Nodes(shape) && Distinct(shape.r) && Shaped(FieldsOf(Nodes(shape.r)), shape.r)
      ensures shape.l.Leaf? ==> Sorted(InOrder(shape.r)) && KeyRemoved(InOrder(shape), root.key, InOrder(shape.r))
    {
      ghost var m := FieldsOf(Nodes(shape));
      assert m[shape.n] == Fields(Ptr(shape.l), Ptr(shape.r));
      ShapedFrame(m, FieldsOf(Nodes(shape.r)), shape.r);
      if shape.l.Leaf? { RightOnly(shape); }
    }

    /** Removes the root when it has a left child: the left tree, splayed, takes its place. */
    method JoinChildren(key: int)
      requires Valid() && shape.Bin? && shape.l.Bin? && key == root.key
      modifies this, Nodes(shape)
      ensures Valid() && KeyRemoved(old(Contents()), key, Contents())
    {
      hide Distinct, Shaped, Sorted, Close, InOrder, KeyRemoved;
      ghost var s, m := Nodes(shape), FieldsOf(Nodes(shape));
      ghost var Bin(l, x, r) := shape;
      BothChildren(m, l, x, r);
      RootAndParts();
      var tmp := root.right;
      root := root.left;
      ghost var f := Splay(key, s, l);
      ghost var m1 := FieldsOf(s);
      RootInNodes(f);
      PutRight(root, tmp, s);
      hide Nodes;
      Rejoined(m, m1, FieldsOf(s), l, x, r, f);
      shape := Bin(f.l, f.n, r);
      ShapedFrame(FieldsOf(s), FieldsOf(Nodes(shape)), shape);
    }

    /** SPLAY_REMOVE: takes the node with the argument's key out of the order and returns
        the argument, or returns null when no node has the key. */
    method Remove(elm: Node) returns (removed: Node?)
      requires Valid()
      modifies this, Nodes(shape)
      ensures Valid()
      ensures removed != null ==> removed == elm && KeyRemoved(old(Contents()), elm.key, Contents())
      ensures removed == null ==> Contents() == old(Contents()) && forall n :: n in Contents() ==> n.key != elm.key
    {
      hide Distinct, Shaped, Sorted, Close, InOrder, KeyRemoved;
      NoneInLeaf();
      if root == null { return null; }
      SplayAll(elm.key);
      if elm.key == root.key {
        RootAndParts();
        if root.left == null {
          root := root.right;
          shape := shape.r;
        } else {
          JoinChildren(elm.key);
        }
        return elm;
      }
      Absent(shape, elm.key);
      return null;
    }
  }

  /** What holds between the steps of a splay of the tree `t0` for `key`; `m0` are the
      fields it began with. */
  ghost predicate Splaying(key: int, header: Node, m0: Memory, m: Memory, t0: Shape, l: Spine, t: Shape, r: Spine) {
    && Rig(m, header, l, t, r) && Sorted(InOrder(t0)) && AllBelow(FlatL(l), key) && AllAbove(FlatR(r), key)
    && RigNodes(l, t, r) == Nodes(t0) && Line(l, t, r) == InOrder(t0)
    && SameOutside(m0, m, Nodes(t0) + {header})
  }

  lemma SplayBegins(key: int, mOld: Memory, m0: Memory, header: Node, t0: Shape)
    requires Distinct(t0) && Shaped(mOld, t0) && Sorted(InOrder(t0)) && Nodes(t0) <= mOld.Keys
    requires header !in mOld && m0.Keys == mOld.Keys + {header} && (forall n :: n in mOld ==> m0[n] == mOld[n])
    ensures Splaying(key, header, m0, m0, t0, Nil, t0, Nil)
  {
    ShapedFrame(mOld, m0, t0);
  }

  lemma SplayEnds(mOld: Memory, m0: Memory, m: Memory, m1: Memory, header: Node, t0: Shape, f: Shape)
    requires Shaped(m1, f) && Nodes(f) == Nodes(t0) && Nodes(t0) <= mOld.Keys && header !in mOld
    requires m0.Keys == m1.Keys == mOld.Keys + {header} && m.Keys == mOld.Keys
    requires (forall n :: n in mOld ==> m0[n] == mOld[n]) && (forall n :: n in m ==> m1[n] == m[n])
    requires SameOutside(m0, m1, Nodes(t0) + {header})
    ensures Shaped(m, f) && SameOutside(mOld, m, Nodes(t0))
  {
    ShapedFrame(m1, m, f);
  }

  lemma RootFields(key: int, header: Node, m0: Memory, m: Memory, t0: Shape, l: Spine, t: Shape, r: Spine)
    requires Splaying(key, header, m0, m, t0, l, t, r)
    ensures header in m && Last(l, header) in m && Last(r, header) in m
      && (t.Bin? ==> Size(t) == Size(t.l) + 1 + Size(t.r))
    ensures t.Bin? ==>
      t.n in m && t.n in Nodes(t) && t.n != header && t.n != Last(l, header) && t.n != Last(r, header)
      && m[t.n] == Fields(Ptr(t.l), Ptr(t.r))
    ensures t.Bin? && t.l.Bin? ==>
      t.l.n in m && t.l.n in Nodes(t) && t.l.n != t.n && m[t.l.n] == Fields(Ptr(t.l.l), Ptr(t.l.r))
    ensures t.Bin? && t.r.Bin? ==>
      t.r.n in m && t.r.n in Nodes(t) && t.r.n != t.n && m[t.r.n] == Fields(Ptr(t.r.l), Ptr(t.r.r))
  {
    LastIn(m, header, l, t, r);
    TwoLevels(m, t);
  }

  /** A key before all the nodes, or after them. */
  ghost function Beyond(comp: int, t: Shape): int
    requires t.Bin?
  {
    var s := InOrder(t);
    if comp < 0 then s[0].key - 1 else s[|s| - 1].key + 1
  }

  lemma BeyondAll(comp: int, key: int, header: Node, m0: Memory, m: Memory, t0: Shape, l: Spine, t: Shape, r: Spine)
    requires comp != 0 && t0.Bin? && key == Beyond(comp, t0) && Splaying(key, header, m0, m, t0, l, t, r) && t.Bin?
    ensures if comp < 0 then key < t.n.key else key > t.n.key
    ensures header in m && Last(l, header) in m && Last(r, header) in m && Size(t) == Size(t.l) + 1 + Size(t.r)
    ensures t.n in m && t.n in Nodes(t) && m[t.n] == Fields(Ptr(t.l), Ptr(t.r))
    ensures t.l.Bin? ==> t.l.n in m
    ensures t.r.Bin? ==> t.r.n in m
  {
    RootFields(key, header, m0, m, t0, l, t, r);
    RootListed(t);
    hide Rig;
    BeyondEnds(comp, t0);
    assert t.n in InOrder(t0);
  }

  lemma Outermost(comp: int, t: Shape, f: Shape)
    requires comp != 0 && t.Bin? && Sorted(InOrder(t)) && InOrder(f) == InOrder(t) && Close(f, Beyond(comp, t))
    ensures f.n == if comp < 0 then InOrder(t)[0] else InOrder(t)[|InOrder(t)| - 1]
  {
    var s, key := InOrder(t), Beyond(comp, t);
    BeyondEnds(comp, t);
    assert s == InOrder(f.l) + [f.n] + InOrder(f.r);
    assert f.n in s;
    if comp < 0 {
      Neither(InOrder(f.l), key);
    } else {
      Neither(InOrder(f.r), key);
    }
  }

  lemma BeyondEnds(comp: int, t: Shape)
    requires t.Bin? && Sorted(InOrder(t))
    ensures if comp < 0 then AllAbove(InOrder(t), Beyond(comp, t)) else AllBelow(InOrder(t), Beyond(comp, t))
  {
    var s := InOrder(t);
    forall n | n in s ensures s[0].key <= n.key <= s[|s| - 1].key {
      var i :| 0 <= i < |s| && s[i] == n;
    }
  }

  lemma Neither(a: seq<Node>, key: int)
    requires AllBelow(a, key) && AllAbove(a, key)
    ensures a == []
  {
    if |a| > 0 { FirstIn(a); }
  }

  lemma FirstIn(a: seq<Node>)
    requires |a| > 0
    ensures a[0] in a
  {
  }

  /** A step that keeps the nodes, the order and what is elsewhere keeps the splay going. */
  lemma Onward(key: int, header: Node, m0: Memory, m: Memory, m': Memory, t0: Shape, l: Spine, t: Shape, r: Spine,
          l': Spine, t': Shape, r': Spine)
    requires Splaying(key, header, m0, m, t0, l, t, r) && Rig(m', header, l', t', r')
    requires RigNodes(l', t', r') == RigNodes(l, t, r) && Line(l', t', r') == Line(l, t, r)
    requires SameOutside(m, m', RigNodes(l, t, r) + {header}) && AllBelow(FlatL(l'), key) && AllAbove(FlatR(r'), key)
    ensures Splaying(key, header, m0, m', t0, l', t', r')
  {
    hide Rig, RigNodes, Line, Sorted, AllBelow, AllAbove;
  }

  /** With a neighbour at the root and not the key, the key is nowhere. */
  lemma Absent(t: Shape, key: int)
    requires Close(t, key) && Sorted(InOrder(t)) && t.n.key != key
    ensures forall n :: n in InOrder(t) ==> n.key != key
  {
    Around(InOrder(t.l), t.n, InOrder(t.r));
  }

  lemma OneForKey(s: seq<Node>, a: Node, b: Node)
    requires Sorted(s) && a in s && a.key == b.key
    ensures b in s ==> a == b
  {
    var i :| 0 <= i < |s| && s[i] == a;
    if b in s {
      var j :| 0 <= j < |s| && s[j] == b;
      assert !(i < j) && !(j < i);
    }
  }

  lemma Alone(m: Memory, elm: Node)
    requires elm in m && m[elm] == Fields(null, null)
    ensures var u := Bin(Leaf, elm, Leaf);
      Distinct(u) && Shaped(m, u) && Nodes(u) == {elm} && Inserted(InOrder(Leaf), elm, InOrder(u))
  {
    InsertedBetween([], elm, []);
    assert [] + [] == InOrder(Leaf);
  }

  lemma RightOnly(t: Shape)
    requires t.Bin? && t.l.Leaf? && Sorted(InOrder(t))
    ensures KeyRemoved(InOrder(t), t.n.key, InOrder(t.r)) && Sorted(InOrder(t.r))
  {
    var b := InOrder(t.r);
    assert [] + [t.n] + b == InOrder(t) && [] + b == b;
    RemovedBetween([], t.n, b);
    Around([], t.n, b);
  }

  lemma HungLeft(m: Memory, m': Memory, l: Shape, x: Node, r: Shape, elm: Node)
    requires var t := Bin(l, x, r);
      Distinct(t) && Shaped(m, t) && Sorted(InOrder(t)) && Close(t, elm.key) && elm.key < x.key
    requires elm !in Nodes(l) + {x} + Nodes(r) && elm in m
    requires m' == m[elm := Fields(Ptr(l), x)][x := m[x].(left := null)]
    ensures var u := Bin(l, elm, Bin(Leaf, x, r));
      && Distinct(u) && Shaped(m', u) && Nodes(u) == Nodes(Bin(l, x, r)) + {elm}
      && Inserted(InOrder(Bin(l, x, r)), elm, InOrder(u))
  {
    HungLeftOrder(l, x, r, elm);
    hide InOrder, Sorted, Inserted, Close;
    assert elm != x;
    assert Ptr(Bin(Leaf, x, r)) == x;
    ShapedFrame(m, m', l);
    ShapedFrame(m, m', r);
    assert Shaped(m', Bin(Leaf, x, r)) && Distinct(Bin(Leaf, x, r));
    assert Nodes(Bin(Leaf, x, r)) == Nodes(r) + {x};
  }

  lemma HungLeftOrder(l: Shape, x: Node, r: Shape, elm: Node)
    requires Sorted(InOrder(Bin(l, x, r))) && Close(Bin(l, x, r), elm.key) && elm.key < x.key
    ensures Inserted(InOrder(Bin(l, x, r)), elm, InOrder(Bin(l, elm, Bin(Leaf, x, r))))
  {
    var a, b := InOrder(l), [x] + InOrder(r);
    Around(InOrder(l), x, InOrder(r));
    assert InOrder(Bin(Leaf, x, r)) == b;
    assert InOrder(Bin(l, x, r)) == a + b;
    InsertedBetween(a, elm, b);
  }

  lemma HungRight(m: Memory, m': Memory, l: Shape, x: Node, r: Shape, elm: Node)
    requires var t := Bin(l, x, r);
      Distinct(t) && Shaped(m, t) && Sorted(InOrder(t)) && Close(t, elm.key) && elm.key > x.key
    requires elm !in Nodes(l) + {x} + Nodes(r) && elm in m
    requires m' == m[elm := Fields(x, Ptr(r))][x := m[x].(right := null)]
    ensures var u := Bin(Bin(l, x, Leaf), elm, r);
      && Distinct(u) && Shaped(m', u) && Nodes(u) == Nodes(Bin(l, x, r)) + {elm}
      && Inserted(InOrder(Bin(l, x, r)), elm, InOrder(u))
  {
    HungRightOrder(l, x, r, elm);
    hide InOrder, Sorted, Inserted, Close;
    assert elm != x;
    assert Ptr(Bin(l, x, Leaf)) == x;
    ShapedFrame(m, m', l);
    ShapedFrame(m, m', r);
    assert Shaped(m', Bin(l, x, Leaf)) && Distinct(Bin(l, x, Leaf));
    assert Nodes(Bin(l, x, Leaf)) == Nodes(l) + {x};
  }

  lemma HungRightOrder(l: Shape, x: Node, r: Shape, elm: Node)
    requires Sorted(InOrder(Bin(l, x, r))) && Close(Bin(l, x, r), elm.key) && elm.key > x.key
    ensures Inserted(InOrder(Bin(l, x, r)), elm, InOrder(Bin(Bin(l, x, Leaf), elm, r)))
  {
    var a, b := InOrder(l) + [x], InOrder(r);
    Around(InOrder(l), x, InOrder(r));
    assert InOrder(Bin(l, x, Leaf)) == a;
    assert InOrder(Bin(l, x, r)) == a + b;
    InsertedBetween(a, elm, b);
  }

  /** After splaying the left tree for a key above it all, its root has room on the right. */
  lemma Rejoined(m: Memory, m1: Memory, m': Memory, l: Shape, x: Node, r: Shape, f: Shape)
    requires var t := Bin(l, x, r); Distinct(t) && Shaped(m, t) && Sorted(InOrder(t))
    requires Shaped(m1, f) && Distinct(f) && Nodes(f) == Nodes(l) && InOrder(f) == InOrder(l) && Close(f, x.key)
    requires SameOutside(m, m1, Nodes(l)) && f.n in m1 && m' == m1[f.n := m1[f.n].(right := Ptr(r))]
    ensures var u := Bin(f.l, f.n, r); Distinct(u) && Shaped(m', u) && InOrder(u) == InOrder(l) + InOrder(r)
  {
    Around(InOrder(l), x, InOrder(r));
    NothingAbove(f, x.key);
    ShapedFrame(m, m', r);
    ShapedFrame(m1, m', f.l);
  }

  lemma RootInNodes(f: Shape)
    ensures f.Bin? ==> f.n in Nodes(f) && Nodes(f) == Nodes(f.l) + {f.n} + Nodes(f.r)
  {
  }

  lemma BothChildren(m: Memory, l: Shape, x: Node, r: Shape)
    requires Distinct(Bin(l, x, r)) && Shaped(m, Bin(l, x, r)) && Sorted(InOrder(Bin(l, x, r)))
    ensures Distinct(l) && Shaped(m, l) && Sorted(InOrder(l)) && Nodes(l) <= Nodes(Bin(l, x, r))
    ensures InOrder(Bin(l, x, r)) == InOrder(l) + [x] + InOrder(r)
    ensures KeyRemoved(InOrder(l) + [x] + InOrder(r), x.key, InOrder(l) + InOrder(r)) && Sorted(InOrder(l) + InOrder(r))
  {
    RemovedBetween(InOrder(l), x, InOrder(r));
    Around(InOrder(l), x, InOrder(r));
  }

  lemma NoneInLeaf()
    ensures InOrder(Leaf) == [] && Nodes(Leaf) == {}
  {
  }

  lemma NothingAbove(f: Shape, key: int)
    requires Close(f, key) && AllBelow(InOrder(f), key)
    ensures f.r.Leaf? && InOrder(f) == InOrder(f.l) + [f.n]
  {
    RootListed(f);
    RootListed(f.r);
    assert forall n :: n in InOrder(f.r) ==> n in InOrder(f);
  }

  lemma RootListed(t: Shape)
    ensures t.Bin? ==> t.n in InOrder(t)
  {
    assert t.Bin? ==> InOrder(t)[|InOrder(t.l)|] == t.n;
  }

  lemma TreeInRig(l: Spine, t: Shape, r: Spine)
    requires t.Bin?
    ensures t.n in RigNodes(l, t, r) && (t.l.Bin? ==> t.l.n in RigNodes(l, t, r))
      && (t.r.Bin? ==> t.r.n in RigNodes(l, t, r))
  {
    assert t.l.Bin? ==> t.l.n in Nodes(t.l);
    assert t.r.Bin? ==> t.r.n in Nodes(t.r);
  }

  lemma LastInRig(m: Memory, header: Node, l: Spine, t: Shape, r: Spine)
    requires Rig(m, header, l, t, r)
    ensures Last(l, header) in RigNodes(l, t, r) + {header} && Last(r, header) in RigNodes(l, t, r) + {header}
    ensures t.Bin? ==> t.n in RigNodes(l, t, r)
  {
  }

  lemma TwoLevels(m: Memory, t: Shape)
    requires Shaped(m, t) && Distinct(t)
    ensures t.Bin? ==> t.n in Nodes(t) && m[t.n] == Fields(Ptr(t.l), Ptr(t.r))
    ensures t.Bin? && t.l.Bin? ==>
      t.l.n in m && t.l.n in Nodes(t) && t.l.n != t.n && m[t.l.n] == Fields(Ptr(t.l.l), Ptr(t.l.r))
    ensures t.Bin? && t.r.Bin? ==>
      t.r.n in m && t.r.n in Nodes(t) && t.r.n != t.n && m[t.r.n] == Fields(Ptr(t.r.l), Ptr(t.r.r))
  {
    if t.Bin? {
      assert Shaped(m, t.l) && Shaped(m, t.r);
      assert t.n !in Nodes(t.l) && t.n !in Nodes(t.r);
    }
  }
}
