/** Splay trees: the tree in focus, the two trees set aside while splaying, and
    what field updates do to them. */
module SplayMemory {

  class Node {
    const key: int
    var left: Node?
    var right: Node?

    constructor (key: int)
      ensures this.key == key && left == null && right == null
    {
      this.key := key;
      left, right := null, null;
    }
  }

  datatype Shape = Leaf | Bin(l: Shape, n: Node, r: Shape)

  /** Nodes set aside, each with the subtree on its far side; the hole is at the
      near side of the last. A left spine grows to the right, a right spine to the left. */
  datatype Spine = Nil | Snoc(init: Spine, sub: Shape, n: Node)

  ghost function Ptr(t: Shape): Node? { if t.Leaf? then null else t.n }

  /** The node with the hole: the last of the spine, or the header. */
  ghost function Last(s: Spine, header: Node): Node { if s.Nil? then header else s.n }

  ghost function Nodes(t: Shape): set<Node> {
    if t.Leaf? then {} else Nodes(t.l) + {t.n} + Nodes(t.r)
  }

  ghost function SpineNodes(s: Spine): set<Node> {
    if s.Nil? then {} else SpineNodes(s.init) + Nodes(s.sub) + {s.n}
  }

  ghost predicate Distinct(t: Shape) {
    t.Bin? ==> Distinct(t.l) && Distinct(t.r) && t.n !in Nodes(t.l) && t.n !in Nodes(t.r) && Nodes(t.l) !! Nodes(t.r)
  }

  ghost predicate DistinctSpine(s: Spine) {
    s.Snoc? ==>
      DistinctSpine(s.init) && Distinct(s.sub) && s.n !in SpineNodes(s.init) && s.n !in Nodes(s.sub)
      && SpineNodes(s.init) !! Nodes(s.sub)
  }

  ghost function InOrder(t: Shape): seq<Node> {
    if t.Leaf? then [] else InOrder(t.l) + [t.n] + InOrder(t.r)
  }

  lemma {:induction false} InOrderNodes(t: Shape)
    ensures forall n :: n in InOrder(t) <==> n in Nodes(t)
  {
    if t.Bin? {
      InOrderNodes(t.l);
      InOrderNodes(t.r);
    }
  }

  /** The nodes of a left spine in order, and of a right spine in order. */
  ghost function FlatL(s: Spine): seq<Node> {
    if s.Nil? then [] else FlatL(s.init) + InOrder(s.sub) + [s.n]
  }

  ghost function FlatR(s: Spine): seq<Node> {
    if s.Nil? then [] else [s.n] + InOrder(s.sub) + FlatR(s.init)
  }

  /** A spine with its hole filled. */
  ghost function FillL(s: Spine, t: Shape): Shape {
    if s.Nil? then t else FillL(s.init, Bin(s.sub, s.n, t))
  }

  ghost function FillR(s: Spine, t: Shape): Shape {
    if s.Nil? then t else FillR(s.init, Bin(t, s.n, s.sub))
  }

  lemma {:induction false} FillLOrder(s: Spine, t: Shape)
    ensures InOrder(FillL(s, t)) == FlatL(s) + InOrder(t)
    ensures Nodes(FillL(s, t)) == SpineNodes(s) + Nodes(t)
  {
    if s.Snoc? { FillLOrder(s.init, Bin(s.sub, s.n, t)); }
  }

  lemma {:induction false} FillROrder(s: Spine, t: Shape)
    ensures InOrder(FillR(s, t)) == InOrder(t) + FlatR(s)
    ensures Nodes(FillR(s, t)) == SpineNodes(s) + Nodes(t)
  {
    if s.Snoc? { FillROrder(s.init, Bin(t, s.n, s.sub)); }
  }

  lemma {:induction false} FillDistinct(s: Spine, t: Shape)
    requires DistinctSpine(s) && Distinct(t) && SpineNodes(s) !! Nodes(t)
    ensures Distinct(FillL(s, t)) && Distinct(FillR(s, t))
  {
    if s.Snoc? {
      FillDistinct(s.init, Bin(s.sub, s.n, t));
      FillDistinct(s.init, Bin(t, s.n, s.sub));
    }
  }

  // ----- fields as a map -----

  datatype Fields = Fields(left: Node?, right: Node?)

  type Memory = map<Node, Fields>

  ghost function FieldsOf(nodes: set<Node>): (m: Memory)
    reads nodes
    ensures m.Keys == nodes
  {
    map o | o in nodes :: Fields(o.left, o.right)
  }

  ghost predicate Shaped(m: Memory, t: Shape) {
    t.Bin? ==> t.n in m && m[t.n] == Fields(Ptr(t.l), Ptr(t.r)) && Shaped(m, t.l) && Shaped(m, t.r)
  }

  /** The nodes of a left spine hang from each other by their right fields, starting at the header's. */
  ghost predicate HeldL(m: Memory, header: Node, s: Spine) {
    s.Snoc? ==>
      && s.n in m && m[s.n].left == Ptr(s.sub) && Shaped(m, s.sub)
      && Last(s.init, header) in m && m[Last(s.init, header)].right == s.n
      && HeldL(m, header, s.init)
  }

  ghost predicate HeldR(m: Memory, header: Node, s: Spine) {
    s.Snoc? ==>
      && s.n in m && m[s.n].right == Ptr(s.sub) && Shaped(m, s.sub)
      && Last(s.init, header) in m && m[Last(s.init, header)].left == s.n
      && HeldR(m, header, s.init)
  }

  ghost predicate Same(m: Memory, m': Memory, nodes: set<Node>) {
    forall n :: n in nodes && n in m ==> n in m' && m'[n] == m[n]
  }

  ghost predicate SameOutside(m: Memory, m': Memory, nodes: set<Node>) {
    m'.Keys == m.Keys && forall n :: n in m && n !in nodes ==> m'[n] == m[n]
  }

  lemma {:induction false} ShapedFrame(m: Memory, m': Memory, t: Shape)
    requires Shaped(m, t) && Same(m, m', Nodes(t))
    ensures Shaped(m', t)
  {
    if t.Bin? {
      ShapedFrame(m, m', t.l);
      ShapedFrame(m, m', t.r);
    }
  }

  /** A left spine is not disturbed by the right field of its last node, nor by the
      header's left field. */
  lemma {:induction false} HeldLFrame(m: Memory, m': Memory, header: Node, s: Spine)
    requires HeldL(m, header, s) && DistinctSpine(s) && header !in SpineNodes(s)
    requires forall n :: n in SpineNodes(s) && n in m && n != Last(s, header) ==> n in m' && m'[n] == m[n]
    requires s.Snoc? ==>
      s.n in m' && m'[s.n].left == m[s.n].left && header in m && header in m' && m'[header].right == m[header].right
    ensures HeldL(m', header, s)
  {
    if s.Snoc? {
      ShapedFrame(m, m', s.sub);
      HeldLFrame(m, m', header, s.init);
    }
  }

  lemma {:induction false} HeldRFrame(m: Memory, m': Memory, header: Node, s: Spine)
    requires HeldR(m, header, s) && DistinctSpine(s) && header !in SpineNodes(s)
    requires forall n :: n in SpineNodes(s) && n in m && n != Last(s, header) ==> n in m' && m'[n] == m[n]
    requires s.Snoc? ==>
      s.n in m' && m'[s.n].right == m[s.n].right && header in m && header in m' && m'[header].left == m[header].left
    ensures HeldR(m', header, s)
  {
    if s.Snoc? {
      ShapedFrame(m, m', s.sub);
      HeldRFrame(m, m', header, s.init);
    }
  }

  /** Putting a tree in the hole: the header's field then leads to the filled spine. */
  lemma {:induction false} FilledL(m: Memory, header: Node, s: Spine, t: Shape)
    requires HeldL(m, header, s) && Shaped(m, t) && Last(s, header) in m && m[Last(s, header)].right == Ptr(t)
    ensures Shaped(m, FillL(s, t)) && header in m && m[header].right == Ptr(FillL(s, t))
    decreases s
  {
    if s.Snoc? { FilledL(m, header, s.init, Bin(s.sub, s.n, t)); }
  }

  lemma {:induction false} FilledR(m: Memory, header: Node, s: Spine, t: Shape)
    requires HeldR(m, header, s) && Shaped(m, t) && Last(s, header) in m && m[Last(s, header)].left == Ptr(t)
    ensures Shaped(m, FillR(s, t)) && header in m && m[header].left == Ptr(FillR(s, t))
    decreases s
  {
    if s.Snoc? { FilledR(m, header, s.init, Bin(t, s.n, s.sub)); }
  }

  // ----- the state of a splay: two spines on a header and the tree in focus -----

  ghost predicate Rig(m: Memory, header: Node, l: Spine, t: Shape, r: Spine) {
    && DistinctSpine(l) && DistinctSpine(r) && Distinct(t)
    && SpineNodes(l) !! SpineNodes(r) !! Nodes(t)
    && header in m && header !in SpineNodes(l) && header !in SpineNodes(r) && header !in Nodes(t)
    && HeldL(m, header, l) && HeldR(m, header, r) && Shaped(m, t)
  }

  ghost function RigNodes(l: Spine, t: Shape, r: Spine): set<Node> { SpineNodes(l) + Nodes(t) + SpineNodes(r) }

  ghost function Line(l: Spine, t: Shape, r: Spine): seq<Node> { FlatL(l) + InOrder(t) + FlatR(r) }

  lemma LastIn(m: Memory, header: Node, l: Spine, t: Shape, r: Spine)
    requires Rig(m, header, l, t, r)
    ensures Last(l, header) in m && Last(r, header) in m
    ensures l.Snoc? ==> Last(l, header) in SpineNodes(l)
    ensures r.Snoc? ==> Last(r, header) in SpineNodes(r)
    ensures t.Bin? ==> t.n in m && t.n in Nodes(t) && m[t.n] == Fields(Ptr(t.l), Ptr(t.r))
  {
  }

  /** A change confined to the tree in focus leaves the spines hanging. */
  lemma SpinesKept(m: Memory, m': Memory, header: Node, l: Spine, t: Shape, r: Spine)
    requires Rig(m, header, l, t, r) && m'.Keys == m.Keys && (forall n :: n in m && n !in Nodes(t) ==> m'[n] == m[n])
    ensures HeldL(m', header, l) && HeldR(m', header, r)
  {
    LastIn(m, header, l, t, r);
    HeldLFrame(m, m', header, l);
    HeldRFrame(m, m', header, r);
  }

  ghost function RotR(t: Shape): Shape
    requires t.Bin? && t.l.Bin?
  {
    Bin(t.l.l, t.l.n, Bin(t.l.r, t.n, t.r))
  }

  ghost function RotL(t: Shape): Shape
    requires t.Bin? && t.r.Bin?
  {
    Bin(Bin(t.l, t.n, t.r.l), t.r.n, t.r.r)
  }

  /** Rotating right or, read backwards, left. */
  lemma Turned(a: Shape, y: Node, b: Shape, x: Node, c: Shape)
    ensures var t, u := Bin(Bin(a, y, b), x, c), Bin(a, y, Bin(b, x, c));
      && (Distinct(t) <==> Distinct(u)) && Nodes(t) == Nodes(u) && InOrder(t) == InOrder(u)
      && (Distinct(t) ==> x != y && x !in Nodes(a) + Nodes(b) + Nodes(c) && y !in Nodes(a) + Nodes(b) + Nodes(c))
  {
    TurnedNodes(a, y, b, x, c);
    TurnedOrder(InOrder(a), y, InOrder(b), x, InOrder(c));
    hide Nodes, Distinct;
    assert InOrder(Bin(a, y, b)) == InOrder(a) + [y] + InOrder(b)
      && InOrder(Bin(b, x, c)) == InOrder(b) + [x] + InOrder(c);
  }

  lemma TurnedNodes(a: Shape, y: Node, b: Shape, x: Node, c: Shape)
    ensures var t, u := Bin(Bin(a, y, b), x, c), Bin(a, y, Bin(b, x, c));
      && (Distinct(t) <==> Distinct(u)) && Nodes(t) == Nodes(u)
      && (Distinct(t) ==> x != y && x !in Nodes(a) + Nodes(b) + Nodes(c) && y !in Nodes(a) + Nodes(b) + Nodes(c))
  {
    var t, u := Bin(Bin(a, y, b), x, c), Bin(a, y, Bin(b, x, c));
    assert Nodes(t) == Nodes(Bin(a, y, b)) + {x} + Nodes(c) && Nodes(u) == Nodes(a) + {y} + Nodes(Bin(b, x, c));
  }

  lemma TurnedOrder(a: seq<Node>, y: Node, b: seq<Node>, x: Node, c: seq<Node>)
    ensures (a + [y] + b) + [x] + c == a + [y] + (b + [x] + c)
  {
  }

  lemma RotatedRight(m: Memory, m': Memory, header: Node, l: Spine, t: Shape, r: Spine)
    requires Rig(m, header, l, t, r) && t.Bin? && t.l.Bin? && t.n in m && t.l.n in m
    requires m' == m[t.n := m[t.n].(left := m[t.l.n].right)][t.l.n := m[t.l.n].(right := t.n)]
    ensures Rig(m', header, l, RotR(t), r) && RigNodes(l, RotR(t), r) == RigNodes(l, t, r)
    ensures Line(l, RotR(t), r) == Line(l, t, r)
  {
    var Bin(Bin(a, y, b), x, c) := t;
    Turned(a, y, b, x, c);
    assert Shaped(m, Bin(a, y, b));
    assert y in Nodes(t) && x in Nodes(t);
    SpinesKept(m, m', header, l, t, r);
    hide HeldL, HeldR, InOrder, FlatL, FlatR, Distinct, DistinctSpine, SpineNodes, Nodes;
    ShapedFrame(m, m', a);
    ShapedFrame(m, m', b);
    ShapedFrame(m, m', c);
    assert Shaped(m', Bin(b, x, c));
  }

  lemma RotatedLeft(m: Memory, m': Memory, header: Node, l: Spine, t: Shape, r: Spine)
    requires Rig(m, header, l, t, r) && t.Bin? && t.r.Bin? && t.n in m && t.r.n in m
    requires m' == m[t.n := m[t.n].(right := m[t.r.n].left)][t.r.n := m[t.r.n].(left := t.n)]
    ensures Rig(m', header, l, RotL(t), r) && RigNodes(l, RotL(t), r) == RigNodes(l, t, r)
    ensures Line(l, RotL(t), r) == Line(l, t, r)
  {
    var Bin(a, x, Bin(b, y, c)) := t;
    Turned(a, x, b, y, c);
    assert Shaped(m, Bin(b, y, c));
    assert y in Nodes(t) && x in Nodes(t);
    SpinesKept(m, m', header, l, t, r);
    hide HeldL, HeldR, InOrder, FlatL, FlatR, Distinct, DistinctSpine, SpineNodes, Nodes;
    ShapedFrame(m, m', a);
    ShapedFrame(m, m', b);
    ShapedFrame(m, m', c);
    assert Shaped(m', Bin(a, x, b));
  }

  /** Setting the near field of a last node keeps both spines hanging. */
  lemma SpinesHeld(m: Memory, m': Memory, header: Node, l: Spine, t: Shape, r: Spine)
    requires Rig(m, header, l, t, r) && t.Bin? && Last(l, header) in m && Last(r, header) in m
    requires (exists v :: m' == m[Last(l, header) := m[Last(l, header)].(right := v)])
      || (exists v :: m' == m[Last(r, header) := m[Last(r, header)].(left := v)])
    ensures HeldL(m', header, l) && HeldR(m', header, r) && Shaped(m', t.l) && Shaped(m', t.r)
  {
    LastIn(m, header, l, t, r);
    HeldLFrame(m, m', header, l);
    HeldRFrame(m, m', header, r);
    ShapedFrame(m, m', t.l);
    ShapedFrame(m, m', t.r);
  }

  lemma LinkedLeft(m: Memory, m': Memory, header: Node, l: Spine, t: Shape, r: Spine)
    requires Rig(m, header, l, t, r) && t.Bin? && Last(r, header) in m
    requires m' == m[Last(r, header) := m[Last(r, header)].(left := t.n)]
    ensures Rig(m', header, l, t.l, Snoc(r, t.r, t.n))
    ensures RigNodes(l, t.l, Snoc(r, t.r, t.n)) == RigNodes(l, t, r)
    ensures Line(l, t.l, Snoc(r, t.r, t.n)) == Line(l, t, r)
  {
    LastIn(m, header, l, t, r);
    SpinesHeld(m, m', header, l, t, r);
    LinkedLeftParts(l, t, r);
    hide RigNodes, Line, InOrder, FlatL, FlatR;
  }

  lemma LinkedLeftParts(l: Spine, t: Shape, r: Spine)
    requires t.Bin?
    ensures RigNodes(l, t.l, Snoc(r, t.r, t.n)) == RigNodes(l, t, r)
    ensures Line(l, t.l, Snoc(r, t.r, t.n)) == Line(l, t, r)
  {
  }

  lemma LinkedRight(m: Memory, m': Memory, header: Node, l: Spine, t: Shape, r: Spine)
    requires Rig(m, header, l, t, r) && t.Bin? && Last(l, header) in m
    requires m' == m[Last(l, header) := m[Last(l, header)].(right := t.n)]
    ensures Rig(m', header, Snoc(l, t.l, t.n), t.r, r)
    ensures RigNodes(Snoc(l, t.l, t.n), t.r, r) == RigNodes(l, t, r)
    ensures Line(Snoc(l, t.l, t.n), t.r, r) == Line(l, t, r)
  {
    LastIn(m, header, l, t, r);
    SpinesHeld(m, m', header, l, t, r);
    LinkedRightParts(l, t, r);
    hide RigNodes, Line, InOrder, FlatL, FlatR;
  }

  lemma LinkedRightParts(l: Spine, t: Shape, r: Spine)
    requires t.Bin?
    ensures RigNodes(Snoc(l, t.l, t.n), t.r, r) == RigNodes(l, t, r)
    ensures Line(Snoc(l, t.l, t.n), t.r, r) == Line(l, t, r)
  {
  }

  /** The tree that assembling builds. */
  ghost function Assembled(l: Spine, t: Shape, r: Spine): Shape
    requires t.Bin?
  {
    Bin(FillL(l, t.l), t.n, FillR(r, t.r))
  }

  ghost function HolesFilled(m: Memory, header: Node, l: Spine, t: Shape, r: Spine): Memory
    requires t.Bin? && Last(l, header) in m && Last(r, header) in m
  {
    var m1 := m[Last(l, header) := m[Last(l, header)].(right := Ptr(t.l))];
    m1[Last(r, header) := m1[Last(r, header)].(left := Ptr(t.r))]
  }

  lemma HolesFilledShaped(m: Memory, header: Node, l: Spine, t: Shape, r: Spine)
    requires Rig(m, header, l, t, r) && t.Bin? && Last(l, header) in m && Last(r, header) in m
    ensures var m2 := HolesFilled(m, header, l, t, r);
      && Shaped(m2, FillL(l, t.l)) && Shaped(m2, FillR(r, t.r))
      && m2[header].right == Ptr(FillL(l, t.l)) && m2[header].left == Ptr(FillR(r, t.r))
  {
    var m2 := HolesFilled(m, header, l, t, r);
    LastIn(m, header, l, t, r);
    HeldLFrame(m, m2, header, l);
    HeldRFrame(m, m2, header, r);
    ShapedFrame(m, m2, t.l);
    ShapedFrame(m, m2, t.r);
    FilledL(m2, header, l, t.l);
    FilledR(m2, header, r, t.r);
  }

  lemma AssembledParts(l: Spine, t: Shape, r: Spine)
    requires t.Bin? && DistinctSpine(l) && DistinctSpine(r) && Distinct(t) && SpineNodes(l) !! SpineNodes(r) !! Nodes(t)
    ensures var a := Assembled(l, t, r);
      && Distinct(a) && Nodes(a) == RigNodes(l, t, r) && InOrder(a) == Line(l, t, r)
      && t.n !in Nodes(a.l) && t.n !in Nodes(a.r)
  {
    hide FillL, FillR, FlatL, FlatR, SpineNodes, DistinctSpine;
    FillLOrder(l, t.l);
    FillROrder(r, t.r);
    FillDistinct(l, t.l);
    FillDistinct(r, t.r);
    AssembledOrder(FlatL(l), InOrder(t.l), t.n, InOrder(t.r), FlatR(r));
    assert InOrder(t) == InOrder(t.l) + [t.n] + InOrder(t.r);
    assert Nodes(t) == Nodes(t.l) + {t.n} + Nodes(t.r);
  }

  lemma AssembledOrder(a: seq<Node>, b: seq<Node>, n: Node, c: seq<Node>, d: seq<Node>)
    ensures (a + b) + [n] + (c + d) == a + (b + [n] + c) + d
  {
  }

  lemma AssembledShaped(m: Memory, m': Memory, header: Node, l: Spine, t: Shape, r: Spine)
    requires Rig(m, header, l, t, r) && t.Bin? && Last(l, header) in m && Last(r, header) in m && t.n in m
    requires var m2 := HolesFilled(m, header, l, t, r); m' == m2[t.n := Fields(m2[header].right, m2[header].left)]
    ensures Shaped(m', Assembled(l, t, r)) && Distinct(Assembled(l, t, r))
    ensures Nodes(Assembled(l, t, r)) == RigNodes(l, t, r) && InOrder(Assembled(l, t, r)) == Line(l, t, r)
  {
    var m2 := HolesFilled(m, header, l, t, r);
    HolesFilledShaped(m, header, l, t, r);
    AssembledParts(l, t, r);
    hide FillL, FillR, HolesFilled, HeldL, HeldR, Nodes, InOrder, Distinct, DistinctSpine, RigNodes, Line;
    ShapedFrame(m2, m', FillL(l, t.l));
    ShapedFrame(m2, m', FillR(r, t.r));
  }
}
