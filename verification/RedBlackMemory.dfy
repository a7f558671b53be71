/** The tree fields of a set of nodes as one map, and what field updates do to the
    tree they link. */
module RedBlackMemory {
  import opened RedBlackShape

  datatype Fields = Fields(left: Node?, right: Node?, parent: Node?, red: bool)

  type Memory = map<Node, Fields>

  ghost function FieldsOf(nodes: set<Node>): (m: Memory)
    reads nodes
    ensures m.Keys == nodes
  {
    map o | o in nodes :: Fields(o.left, o.right, o.parent, o.red)
  }

  /** The nodes of `t` are linked as `t` below `parent`. */
  ghost predicate Shaped(m: Memory, t: Shape, parent: Node?) {
    t.Bin? ==>
      && t.n in m && m[t.n] == Fields(Ptr(t.l), Ptr(t.r), parent, t.red)
      && Shaped(m, t.l, t.n) && Shaped(m, t.r, t.n)
  }

  /** The nodes of `c` are linked as `c` with `child` in its hole. */
  ghost predicate Held(m: Memory, root: Node?, c: Ctx, child: Node?) {
    match c
    case Top => root == child
    case InLeft(up, n, red, sib) =>
      n in m && m[n] == Fields(child, Ptr(sib), Above(up), red) && Shaped(m, sib, n) && Held(m, root, up, n)
    case InRight(sib, n, red, up) =>
      n in m && m[n] == Fields(Ptr(sib), child, Above(up), red) && Shaped(m, sib, n) && Held(m, root, up, n)
  }

  ghost predicate Linked(m: Memory, root: Node?, c: Ctx, t: Shape) {
    Apart(c, t) && Held(m, root, c, Ptr(t)) && Shaped(m, t, Above(c))
  }

  ghost predicate Same(m: Memory, m': Memory, nodes: set<Node>) {
    forall n :: n in nodes && n in m ==> n in m' && m'[n] == m[n]
  }

  lemma {:induction false} ShapedFrame(m: Memory, m': Memory, t: Shape, parent: Node?)
    requires Shaped(m, t, parent) && Same(m, m', Nodes(t))
    ensures Shaped(m', t, parent)
  {
    if t.Bin? {
      ShapedFrame(m, m', t.l, t.n);
      ShapedFrame(m, m', t.r, t.n);
    }
  }

  lemma {:induction false} HeldFrame(m: Memory, m': Memory, root: Node?, c: Ctx, child: Node?)
    requires Held(m, root, c, child) && Same(m, m', CtxNodes(c))
    ensures Held(m', root, c, child)
  {
    if !c.Top? {
      ShapedFrame(m, m', c.sib, c.n);
      HeldFrame(m, m', root, c.up, c.n);
    }
  }

  // ----- moving the focus -----

  lemma GoUp(m: Memory, root: Node?, c: Ctx, t: Shape)
    requires !c.Top? && Linked(m, root, c, t)
    ensures Linked(m, root, c.up, Fill(c, t))
    ensures CtxNodes(c.up) + Nodes(Fill(c, t)) == CtxNodes(c) + Nodes(t)
    ensures Whole(c.up, Fill(c, t)) == Whole(c, t)
  {
    FillApart(c, t);
    FillOrder(c, t);
  }

  lemma FillApart(c: Ctx, t: Shape)
    requires !c.Top? && Apart(c, t)
    ensures Apart(c.up, Fill(c, t)) && CtxNodes(c.up) + Nodes(Fill(c, t)) == CtxNodes(c) + Nodes(t)
  {
    assert Nodes(Fill(c, t)) == Nodes(t) + {c.n} + Nodes(c.sib);
  }

  lemma FillOrder(c: Ctx, t: Shape)
    requires !c.Top?
    ensures Whole(c.up, Fill(c, t)) == Whole(c, t)
  {
    if c.InLeft? {
      assert InOrder(Fill(c, t)) == InOrder(t) + [c.n] + InOrder(c.sib);
      Regrouped(Before(c.up), InOrder(t), c.n, InOrder(c.sib), After(c.up));
    } else {
      assert InOrder(Fill(c, t)) == InOrder(c.sib) + [c.n] + InOrder(t);
      Regrouped(Before(c.up), InOrder(c.sib), c.n, InOrder(t), After(c.up));
    }
  }

  lemma GoLeft(m: Memory, root: Node?, c: Ctx, t: Shape)
    requires t.Bin? && Linked(m, root, c, t)
    ensures Linked(m, root, InLeft(c, t.n, t.red, t.r), t.l)
    ensures CtxNodes(InLeft(c, t.n, t.red, t.r)) + Nodes(t.l) == CtxNodes(c) + Nodes(t)
    ensures Whole(InLeft(c, t.n, t.red, t.r), t.l) == Whole(c, t)
  {
    FillOrder(InLeft(c, t.n, t.red, t.r), t.l);
    hide Whole, InOrder, Before, After;
  }

  lemma GoRight(m: Memory, root: Node?, c: Ctx, t: Shape)
    requires t.Bin? && Linked(m, root, c, t)
    ensures Linked(m, root, InRight(t.l, t.n, t.red, c), t.r)
    ensures CtxNodes(InRight(t.l, t.n, t.red, c)) + Nodes(t.r) == CtxNodes(c) + Nodes(t)
    ensures Whole(InRight(t.l, t.n, t.red, c), t.r) == Whole(c, t)
  {
    FillOrder(InRight(t.l, t.n, t.red, c), t.r);
    hide Whole, InOrder, Before, After;
  }

  // ----- single updates -----

  /** Giving the child of a context a new parent. */
  ghost function Reparent(m: Memory, b: Node?, p: Node?): Memory {
    if b != null && b in m then m[b := m[b].(parent := p)] else m
  }

  lemma ReparentShaped(m: Memory, t: Shape, p: Node?, q: Node?)
    requires Shaped(m, t, p) && Distinct(t)
    ensures Shaped(Reparent(m, Ptr(t), q), t, q)
  {
    if t.Bin? {
      ShapedFrame(m, Reparent(m, Ptr(t), q), t.l, t.n);
      ShapedFrame(m, Reparent(m, Ptr(t), q), t.r, t.n);
    }
  }

  /** Making `y` the child, where `x` was, of `x`'s parent. */
  ghost function Rehang(m: Memory, p: Node?, x: Node, y: Node?): Memory {
    if p != null && p in m then
      if m[p].left == x then m[p := m[p].(left := y)] else m[p := m[p].(right := y)]
    else m
  }

  ghost function NewRoot(root: Node?, p: Node?, y: Node?): Node? { if p == null then y else root }

  lemma RehangHeld(m: Memory, root: Node?, c: Ctx, x: Node, y: Node?)
    requires Held(m, root, c, x) && DistinctCtx(c) && x !in CtxNodes(c)
    ensures Held(Rehang(m, Above(c), x, y), NewRoot(root, Above(c), y), c, y)
  {
    if !c.Top? {
      var m' := Rehang(m, Above(c), x, y);
      ShapedFrame(m, m', c.sib, c.n);
      HeldFrame(m, m', root, c.up, c.n);
      assert c.InRight? ==> m[c.n].left != x;
    }
  }

  lemma PaintLinked(m: Memory, root: Node?, c: Ctx, t: Shape, red: bool)
    requires t.Bin? && Linked(m, root, c, t)
    ensures Linked(m[t.n := m[t.n].(red := red)], root, c, Paint(t, red))
    ensures Nodes(Paint(t, red)) == Nodes(t) && InOrder(Paint(t, red)) == InOrder(t)
  {
    var m' := m[t.n := m[t.n].(red := red)];
    ShapedFrame(m, m', t.l, t.n);
    ShapedFrame(m, m', t.r, t.n);
    HeldFrame(m, m', root, c, t.n);
  }

  // ----- rotations -----

  /** The six field updates of RB_ROTATE_LEFT at `x`. */
  ghost function RotLMemory(m: Memory, x: Node, y: Node, b: Node?): Memory
    requires x in m && y in m
  {
    var m1 := Reparent(m[x := m[x].(right := b)], b, x);
    var m2 := m1[y := m1[y].(parent := m[x].parent)];
    var m3 := Rehang(m2, m[x].parent, x, y);
    var m4 := m3[y := m3[y].(left := x)];
    m4[x := m4[x].(parent := y)]
  }

  ghost function RotRMemory(m: Memory, x: Node, y: Node, b: Node?): Memory
    requires x in m && y in m
  {
    var m1 := Reparent(m[x := m[x].(left := b)], b, x);
    var m2 := m1[y := m1[y].(parent := m[x].parent)];
    var m3 := Rehang(m2, m[x].parent, x, y);
    var m4 := m3[y := m3[y].(right := x)];
    m4[x := m4[x].(parent := y)]
  }

  lemma RotLFields(m: Memory, x: Node, y: Node, b: Node?)
    requires x in m && y in m && x != y && b != x && b != y && m[x].parent != x && m[x].parent != y
    ensures var m' := RotLMemory(m, x, y, b);
      && m'.Keys == m.Keys
      && m'[x] == Fields(m[x].left, b, y, m[x].red) && m'[y] == Fields(x, m[y].right, m[x].parent, m[y].red)
  {
  }

  lemma RotLOther(m: Memory, x: Node, y: Node, b: Node?, n: Node)
    requires x in m && y in m && x != y && b != x && b != y && m[x].parent != x && m[x].parent != y && n in m && n != x
      && n != y
    ensures RotLMemory(m, x, y, b).Keys == m.Keys
      && RotLMemory(m, x, y, b)[n] == Rehang(Reparent(m, b, x), m[x].parent, x, y)[n]
  {
    var p, r := m[x].parent, Reparent(m, b, x);
    var m1 := Reparent(m[x := m[x].(right := b)], b, x);
    var m2 := m1[y := m1[y].(parent := p)];
    assert m2[n] == r[n] && (p != null && p in m ==> m2[p] == r[p]);
    assert Rehang(m2, p, x, y)[n] == Rehang(r, p, x, y)[n];
  }

  lemma RotLOthers(m: Memory, x: Node, y: Node, b: Node?)
    requires x in m && y in m && x != y && b != x && b != y && m[x].parent != x && m[x].parent != y
    ensures var m' := RotLMemory(m, x, y, b);
      && m'.Keys == m.Keys
      && forall n :: n in m && n != x && n != y ==> m'[n] == Rehang(Reparent(m, b, x), m[x].parent, x, y)[n]
  {
    RotLFields(m, x, y, b);
    var m' := RotLMemory(m, x, y, b);
    hide RotLMemory;
    forall n | n in m && n != x && n != y ensures m'[n] == Rehang(Reparent(m, b, x), m[x].parent, x, y)[n] {
      RotLOther(m, x, y, b, n);
    }
  }

  lemma RotLLinked(m: Memory, root: Node?, c: Ctx, t: Shape)
    requires t.Bin? && t.r.Bin? && t.r.n in m && Linked(m, root, c, t)
    ensures Linked(RotLMemory(m, t.n, t.r.n, Ptr(t.r.l)), NewRoot(root, Above(c), t.r.n), c, RotL(t))
    ensures Nodes(RotL(t)) == Nodes(t) && InOrder(RotL(t)) == InOrder(t)
  {
    var x, y, a, b, d := t.n, t.r.n, t.l, t.r.l, t.r.r;
    assert Shaped(m, t.r, x);
    PiecesL(c, t);
    RootIn(b);
    AboveIn(c);
    RotLFields(m, x, y, Ptr(b));
    RotLOthers(m, x, y, Ptr(b));
    RotationRest(m, RotLMemory(m, x, y, Ptr(b)), root, c, x, y, a, b, d);
    RotLApart(c, t);
    RotLOrder(t);
  }

  lemma RotRFields(m: Memory, x: Node, y: Node, b: Node?)
    requires x in m && y in m && x != y && b != x && b != y && m[x].parent != x && m[x].parent != y
    ensures var m' := RotRMemory(m, x, y, b);
      && m'.Keys == m.Keys
      && m'[x] == Fields(b, m[x].right, y, m[x].red) && m'[y] == Fields(m[y].left, x, m[x].parent, m[y].red)
  {
  }

  lemma RotROther(m: Memory, x: Node, y: Node, b: Node?, n: Node)
    requires x in m && y in m && x != y && b != x && b != y && m[x].parent != x && m[x].parent != y && n in m && n != x
      && n != y
    ensures RotRMemory(m, x, y, b).Keys == m.Keys
      && RotRMemory(m, x, y, b)[n] == Rehang(Reparent(m, b, x), m[x].parent, x, y)[n]
  {
    var p, r := m[x].parent, Reparent(m, b, x);
    var m1 := Reparent(m[x := m[x].(left := b)], b, x);
    var m2 := m1[y := m1[y].(parent := p)];
    assert m2[n] == r[n] && (p != null && p in m ==> m2[p] == r[p]);
    assert Rehang(m2, p, x, y)[n] == Rehang(r, p, x, y)[n];
  }

  lemma RotROthers(m: Memory, x: Node, y: Node, b: Node?)
    requires x in m && y in m && x != y && b != x && b != y && m[x].parent != x && m[x].parent != y
    ensures var m' := RotRMemory(m, x, y, b);
      && m'.Keys == m.Keys
      && forall n :: n in m && n != x && n != y ==> m'[n] == Rehang(Reparent(m, b, x), m[x].parent, x, y)[n]
  {
    RotRFields(m, x, y, b);
    var m' := RotRMemory(m, x, y, b);
    hide RotRMemory;
    forall n | n in m && n != x && n != y ensures m'[n] == Rehang(Reparent(m, b, x), m[x].parent, x, y)[n] {
      RotROther(m, x, y, b, n);
    }
  }

  lemma RotRLinked(m: Memory, root: Node?, c: Ctx, t: Shape)
    requires t.Bin? && t.l.Bin? && t.l.n in m && Linked(m, root, c, t)
    ensures Linked(RotRMemory(m, t.n, t.l.n, Ptr(t.l.r)), NewRoot(root, Above(c), t.l.n), c, RotR(t))
    ensures Nodes(RotR(t)) == Nodes(t) && InOrder(RotR(t)) == InOrder(t)
  {
    var x, y, a, b, d := t.n, t.l.n, t.r, t.l.r, t.l.l;
    assert Shaped(m, t.l, x);
    PiecesR(c, t);
    RootIn(b);
    AboveIn(c);
    RotRFields(m, x, y, Ptr(b));
    RotROthers(m, x, y, Ptr(b));
    RotationRest(m, RotRMemory(m, x, y, Ptr(b)), root, c, x, y, a, b, d);
    RotRApart(c, t);
    RotROrder(t);
  }

  /** Apart from `x` and `y` a rotation only gives `b` a new parent and rehangs `y`. */
  lemma RotationRest(m: Memory, m': Memory, root: Node?, c: Ctx, x: Node, y: Node, a: Shape, b: Shape, d: Shape)
    requires Pieces(c, x, y, a, b, d) && x in m && y in m && m[x].parent == Above(c)
    requires Held(m, root, c, x) && Shaped(m, a, x) && Shaped(m, b, y) && Shaped(m, d, y)
    requires m'.Keys == m.Keys
    requires forall n :: n in m && n != x && n != y ==> m'[n] == Rehang(Reparent(m, Ptr(b), x), Above(c), x, y)[n]
    ensures Held(m', NewRoot(root, Above(c), y), c, y) && Shaped(m', a, x) && Shaped(m', b, x) && Shaped(m', d, y)
  {
    RotationAbove(m, m', root, c, x, y, a, b, d);
    RotationBelow(m, m', c, x, y, a, b, d);
  }

  lemma RotationAbove(m: Memory, m': Memory, root: Node?, c: Ctx, x: Node, y: Node, a: Shape, b: Shape, d: Shape)
    requires Pieces(c, x, y, a, b, d) && x in m && y in m && Held(m, root, c, x) && m'.Keys == m.Keys
    requires forall n :: n in m && n != x && n != y ==> m'[n] == Rehang(Reparent(m, Ptr(b), x), Above(c), x, y)[n]
    ensures Held(m', NewRoot(root, Above(c), y), c, y)
  {
    var m1 := Reparent(m, Ptr(b), x);
    RootIn(b);
    hide Held, Distinct, DistinctCtx, Shaped;
    HeldFrame(m, m1, root, c, x);
    RehangHeld(m1, root, c, x, y);
    HeldFrame(Rehang(m1, Above(c), x, y), m', NewRoot(root, Above(c), y), c, y);
  }

  lemma RotationBelow(m: Memory, m': Memory, c: Ctx, x: Node, y: Node, a: Shape, b: Shape, d: Shape)
    requires Pieces(c, x, y, a, b, d) && x in m && y in m && Shaped(m, a, x) && Shaped(m, b, y) && Shaped(m, d, y)
      && m'.Keys == m.Keys
    requires forall n :: n in m && n != x && n != y ==> m'[n] == Rehang(Reparent(m, Ptr(b), x), Above(c), x, y)[n]
    ensures Shaped(m', a, x) && Shaped(m', b, x) && Shaped(m', d, y)
  {
    var m1 := Reparent(m, Ptr(b), x);
    RootIn(b);
    AboveIn(c);
    Untouched(m, m', Above(c), Ptr(b), x, y, Nodes(a));
    Untouched(m, m', Above(c), Ptr(b), x, y, Nodes(b));
    Untouched(m, m', Above(c), Ptr(b), x, y, Nodes(d));
    ReparentShaped(m, b, y, x);
    hide Shaped, Reparent, Rehang;
    ShapedFrame(m, m1, a, x);
    ShapedFrame(m1, m', a, x);
    ShapedFrame(m1, m', b, x);
    ShapedFrame(m, m1, d, y);
    ShapedFrame(m1, m', d, y);
  }

  lemma Untouched(m: Memory, m': Memory, p: Node?, b: Node?, x: Node, y: Node, nodes: set<Node>)
    requires m'.Keys == m.Keys && x !in nodes && y !in nodes && (p == null || p !in nodes)
    requires forall n :: n in m && n != x && n != y ==> m'[n] == Rehang(Reparent(m, b, x), p, x, y)[n]
    ensures Same(Reparent(m, b, x), m', nodes) && (b == null || b !in nodes ==> Same(m, Reparent(m, b, x), nodes))
  {
  }

  lemma AboveIn(c: Ctx)
    ensures !c.Top? ==> c.n in CtxNodes(c)
  {
  }

  lemma RootIn(t: Shape)
    ensures t.Bin? ==> t.n in Nodes(t)
  {
  }

  /** From a focus anywhere to the whole tree. */
  lemma {:induction false} GoTop(m: Memory, root: Node?, c: Ctx, t: Shape)
    requires Linked(m, root, c, t)
    ensures Linked(m, root, Top, Plug(c, t)) && Nodes(Plug(c, t)) == CtxNodes(c) + Nodes(t)
    ensures InOrder(Plug(c, t)) == Whole(c, t)
  {
    if !c.Top? {
      GoUp(m, root, c, t);
      GoTop(m, root, c.up, Fill(c, t));
    }
  }

  /** Filling the hole of a context with `y`, on the side the hole is. */
  ghost function PutChild(m: Memory, c: Ctx, y: Node?): Memory {
    if c.Top? || c.n !in m then m
    else if c.InLeft? then m[c.n := m[c.n].(left := y)] else m[c.n := m[c.n].(right := y)]
  }

  lemma PutChildHeld(m: Memory, root: Node?, c: Ctx, x: Node?, y: Node?)
    requires Held(m, root, c, x) && DistinctCtx(c)
    ensures Held(PutChild(m, c, y), NewRoot(root, Above(c), y), c, y)
  {
    if !c.Top? {
      ShapedFrame(m, PutChild(m, c, y), c.sib, c.n);
      HeldFrame(m, PutChild(m, c, y), root, c.up, c.n);
    }
  }

  /** A fresh red node in an empty hole. */
  lemma NewLeafLinked(m: Memory, root: Node?, c: Ctx, e: Node)
    requires Linked(m, root, c, Leaf) && e !in CtxNodes(c)
    ensures Linked(PutChild(m, c, e)[e := Fields(null, null, Above(c), true)], NewRoot(root, Above(c), e), c,
      Bin(Leaf, e, true, Leaf))
  {
    var m1 := PutChild(m, c, e);
    PutChildHeld(m, root, c, null, e);
    HeldFrame(m1, m1[e := Fields(null, null, Above(c), true)], NewRoot(root, Above(c), e), c, e);
  }

  /** Below a context, the root is a node of the context. */
  lemma {:induction false} RootAbove(m: Memory, root: Node?, c: Ctx, child: Node?)
    requires !c.Top? && Held(m, root, c, child)
    ensures root != null && root in CtxNodes(c)
  {
    if !c.up.Top? { RootAbove(m, root, c.up, c.n); }
  }

  // ----- taking a node out -----

  /** Following a context down, the inverse of going up. */
  lemma GoDown(m: Memory, root: Node?, c: Ctx, t: Shape)
    requires !c.Top? && Linked(m, root, c.up, Fill(c, t))
    ensures Linked(m, root, c, t) && CtxNodes(c) + Nodes(t) == CtxNodes(c.up) + Nodes(Fill(c, t))
    ensures Whole(c, t) == Whole(c.up, Fill(c, t))
  {
    if c.InLeft? { GoLeft(m, root, c.up, Fill(c, t)); } else { GoRight(m, root, c.up, Fill(c, t)); }
  }

  lemma {:induction false} GoUpTo(m: Memory, root: Node?, rc: Ctx, out: Ctx, t: Shape)
    requires Linked(m, root, Under(rc, out), t)
    ensures Linked(m, root, out, Plug(rc, t))
    ensures CtxNodes(out) + Nodes(Plug(rc, t)) == CtxNodes(Under(rc, out)) + Nodes(t)
    ensures Whole(out, Plug(rc, t)) == Whole(Under(rc, out), t)
  {
    if !rc.Top? {
      GoUp(m, root, Under(rc, out), t);
      GoUpTo(m, root, rc.up, out, Fill(rc, t));
    }
  }

  lemma {:induction false} GoDownTo(m: Memory, root: Node?, rc: Ctx, out: Ctx, t: Shape)
    requires Linked(m, root, out, Plug(rc, t))
    ensures Linked(m, root, Under(rc, out), t)
    ensures CtxNodes(Under(rc, out)) + Nodes(t) == CtxNodes(out) + Nodes(Plug(rc, t))
    ensures Whole(Under(rc, out), t) == Whole(out, Plug(rc, t))
  {
    if !rc.Top? {
      GoDownTo(m, root, rc.up, out, Fill(rc, t));
      GoDown(m, root, Under(rc, out), t);
    }
  }

  lemma UnlinkLinked(m: Memory, root: Node?, c: Ctx, t: Shape, ch: Shape)
    requires Linked(m, root, c, t) && t.Bin? && ((t.l.Leaf? && ch == t.r) || (t.r.Leaf? && ch == t.l))
    ensures Linked(Rehang(Reparent(m, Ptr(ch), Above(c)), Above(c), t.n, Ptr(ch)) - {t.n},
      NewRoot(root, Above(c), Ptr(ch)), c, ch)
  {
    var m1 := Reparent(m, Ptr(ch), Above(c));
    var m2 := Rehang(m1, Above(c), t.n, Ptr(ch));
    RootIn(ch);
    AboveIn(c);
    ReparentShaped(m, ch, t.n, Above(c));
    HeldFrame(m, m1, root, c, t.n);
    RehangHeld(m1, root, c, t.n, Ptr(ch));
    ShapedFrame(m1, m2 - {t.n}, ch, Above(c));
    HeldFrame(m2, m2 - {t.n}, NewRoot(root, Above(c), Ptr(ch)), c, Ptr(ch));
  }

  /** Node `y` takes over the fields, the parent's link and the children of `t`'s root. */
  ghost function SubstituteMemory(m: Memory, c: Ctx, t: Shape, y: Node): Memory
    requires t.Bin? && t.n in m
  {
    Reparent(Reparent(Rehang(m[y := m[t.n]], Above(c), t.n, y), Ptr(t.l), y), Ptr(t.r), y) - {t.n}
  }

  lemma SubstituteLinked(m: Memory, root: Node?, c: Ctx, t: Shape, y: Node)
    requires Linked(m, root, c, t) && t.Bin? && y !in CtxNodes(c) && y !in Nodes(t)
    ensures Linked(SubstituteMemory(m, c, t, y), NewRoot(root, Above(c), y), c, Bin(t.l, y, t.red, t.r))
  {
    var x := t.n;
    AboveIn(c);
    RootIn(t.l);
    RootIn(t.r);
    var m1 := Rehang(m[y := m[x]], Above(c), x, y);
    var m4 := SubstituteMemory(m, c, t, y);
    assert Apart(c, Bin(t.l, y, t.red, t.r)) && Nodes(t) == Nodes(t.l) + {x} + Nodes(t.r);
    SubstituteAbove(m, root, c, t, y);
    SubstituteBelow(m, c, t, y);
    assert m4[y] == Fields(Ptr(t.l), Ptr(t.r), Above(c), t.red);
  }

  lemma SubstituteAbove(m: Memory, root: Node?, c: Ctx, t: Shape, y: Node)
    requires Linked(m, root, c, t) && t.Bin? && y !in CtxNodes(c) && y !in Nodes(t)
    ensures Held(SubstituteMemory(m, c, t, y), NewRoot(root, Above(c), y), c, y)
  {
    var x := t.n;
    var m0 := m[y := m[x]];
    var m1 := Rehang(m0, Above(c), x, y);
    RootIn(t.l);
    RootIn(t.r);
    HeldFrame(m, m0, root, c, x);
    RehangHeld(m0, root, c, x, y);
    hide Held, Shaped;
    HeldFrame(m1, SubstituteMemory(m, c, t, y), NewRoot(root, Above(c), y), c, y);
  }

  lemma SubstituteBelow(m: Memory, c: Ctx, t: Shape, y: Node)
    requires Apart(c, t) && Shaped(m, t, Above(c)) && t.Bin? && y !in CtxNodes(c) && y !in Nodes(t)
    ensures Shaped(SubstituteMemory(m, c, t, y), t.l, y) && Shaped(SubstituteMemory(m, c, t, y), t.r, y)
  {
    var x := t.n;
    var m1 := Rehang(m[y := m[x]], Above(c), x, y);
    var m2 := Reparent(m1, Ptr(t.l), y);
    var m3 := Reparent(m2, Ptr(t.r), y);
    AboveIn(c);
    RootIn(t.l);
    RootIn(t.r);
    assert Nodes(t) == Nodes(t.l) + {x} + Nodes(t.r);
    hide Shaped;
    SubtreeKept(m, m1, t, x);
    ReparentShaped(m1, t.l, x, y);
    ShapedFrame(m1, m2, t.r, x);
    ReparentShaped(m2, t.r, x, y);
    ShapedFrame(m2, m3 - {x}, t.l, y);
    ShapedFrame(m3, m3 - {x}, t.r, y);
  }

  lemma SubtreeKept(m: Memory, m': Memory, t: Shape, x: Node)
    requires t.Bin? && t.n == x && (exists p :: Shaped(m, t, p)) && Same(m, m', Nodes(t.l)) && Same(m, m', Nodes(t.r))
    ensures Shaped(m', t.l, x) && Shaped(m', t.r, x)
  {
    ShapedFrame(m, m', t.l, x);
    ShapedFrame(m, m', t.r, x);
  }
}
