/** Red-black trees as shapes: the tree below a node, and the context above it. */
module RedBlackShape {

  /** A tree element with the fields of its tree entry. */
  class Node {
    const key: int
    var left: Node?
    var right: Node?
    var parent: Node?
    var red: bool

    constructor (key: int)
      ensures this.key == key
    {
      this.key := key;
      left, right, parent, red := null, null, null, false;
    }
  }

  datatype Shape = Leaf | Bin(l: Shape, n: Node, red: bool, r: Shape)

  /** A tree with a hole: the hole is the left or the right child of `n`. */
  datatype Ctx = Top | InLeft(up: Ctx, n: Node, red: bool, sib: Shape)
    | InRight(sib: Shape, n: Node, red: bool, up: Ctx)

  ghost function Plug(c: Ctx, t: Shape): Shape {
    match c
    case Top => t
    case InLeft(up, n, red, sib) => Plug(up, Bin(t, n, red, sib))
    case InRight(sib, n, red, up) => Plug(up, Bin(sib, n, red, t))
  }

  ghost function Ptr(t: Shape): Node? { if t.Leaf? then null else t.n }

  ghost function Above(c: Ctx): Node? { if c.Top? then null else c.n }

  ghost function Nodes(t: Shape): set<Node> {
    match t
    case Leaf => {}
    case Bin(l, n, _, r) => Nodes(l) + {n} + Nodes(r)
  }

  ghost function CtxNodes(c: Ctx): set<Node> {
    match c
    case Top => {}
    case InLeft(up, n, _, sib) => CtxNodes(up) + {n} + Nodes(sib)
    case InRight(sib, n, _, up) => CtxNodes(up) + {n} + Nodes(sib)
  }

  ghost predicate Distinct(t: Shape) {
    match t
    case Leaf => true
    case Bin(l, n, _, r) => Distinct(l) && Distinct(r) && n !in Nodes(l) && n !in Nodes(r) && Nodes(l) !! Nodes(r)
  }

  ghost predicate DistinctCtx(c: Ctx) {
    match c
    case Top => true
    case InLeft(up, n, _, sib) =>
      DistinctCtx(up) && Distinct(sib) && n !in CtxNodes(up) && n !in Nodes(sib) && CtxNodes(up) !! Nodes(sib)
    case InRight(sib, n, _, up) =>
      DistinctCtx(up) && Distinct(sib) && n !in CtxNodes(up) && n !in Nodes(sib) && CtxNodes(up) !! Nodes(sib)
  }

  ghost predicate Apart(c: Ctx, t: Shape) {
    DistinctCtx(c) && Distinct(t) && CtxNodes(c) !! Nodes(t)
  }

  // ----- order: the nodes from left to right -----

  ghost function InOrder(t: Shape): seq<Node> {
    match t
    case Leaf => []
    case Bin(l, n, _, r) => InOrder(l) + [n] + InOrder(r)
  }

  ghost function Before(c: Ctx): seq<Node> {
    match c
    case Top => []
    case InLeft(up, _, _, _) => Before(up)
    case InRight(sib, n, _, up) => Before(up) + InOrder(sib) + [n]
  }

  ghost function After(c: Ctx): seq<Node> {
    match c
    case Top => []
    case InLeft(up, n, _, sib) => [n] + InOrder(sib) + After(up)
    case InRight(_, _, _, up) => After(up)
  }

  ghost function Whole(c: Ctx, t: Shape): seq<Node> { Before(c) + InOrder(t) + After(c) }

  ghost predicate Sorted(s: seq<Node>) { forall i, j :: 0 <= i < j < |s| ==> s[i].key < s[j].key }

  /** Two ways to split what lies around a node. */
  lemma Regrouped(a: seq<Node>, b: seq<Node>, x: Node, c: seq<Node>, d: seq<Node>)
    ensures a + (b + [x] + c) + d == a + b + ([x] + c + d)
    ensures a + (b + [x] + c) + d == (a + b + [x]) + c + d
  {
  }

  lemma {:induction false} PlugInOrder(c: Ctx, t: Shape)
    ensures InOrder(Plug(c, t)) == Whole(c, t)
  {
    match c
    case Top =>
      assert Whole(Top, t) == [] + InOrder(t) + [];
    case InLeft(up, n, red, sib) =>
      PlugInOrder(up, Bin(t, n, red, sib));
      assert InOrder(Bin(t, n, red, sib)) == InOrder(t) + [n] + InOrder(sib);
      Regrouped(Before(up), InOrder(t), n, InOrder(sib), After(up));
    case InRight(sib, n, red, up) =>
      PlugInOrder(up, Bin(sib, n, red, t));
      assert InOrder(Bin(sib, n, red, t)) == InOrder(sib) + [n] + InOrder(t);
      Regrouped(Before(up), InOrder(sib), n, InOrder(t), After(up));
  }

  lemma {:induction false} InOrderNodes(t: Shape)
    ensures forall n :: n in InOrder(t) <==> n in Nodes(t)
  {
    if t.Bin? {
      InOrderNodes(t.l);
      InOrderNodes(t.r);
    }
  }

  // ----- balance -----

  ghost predicate RootRed(t: Shape) { t.Bin? && t.red }

  ghost predicate ParentRed(c: Ctx) { !c.Top? && c.red }

  /** No red node has a red parent. */
  ghost predicate NoRedRed(t: Shape) {
    t.Bin? ==> NoRedRed(t.l) && NoRedRed(t.r) && (t.red ==> !RootRed(t.l) && !RootRed(t.r))
  }

  /** Every path from the root to a leaf has `h` black nodes. */
  ghost predicate Height(t: Shape, h: nat) {
    match t
    case Leaf => h == 0
    case Bin(l, _, red, r) => if red then Height(l, h) && Height(r, h)
      else h > 0 && Height(l, h - 1) && Height(r, h - 1)
  }

  ghost predicate NoRedRedCtx(c: Ctx) {
    !c.Top? ==> NoRedRed(c.sib) && NoRedRedCtx(c.up) && (c.red ==> !RootRed(c.sib) && !ParentRed(c.up))
  }

  /** Filling the hole with a tree of height `h` gives equal heights everywhere. */
  ghost predicate HeightCtx(c: Ctx, h: nat) {
    !c.Top? ==> Height(c.sib, h) && HeightCtx(c.up, if c.red then h else h + 1)
  }

  ghost predicate RootBlackCtx(c: Ctx) {
    !c.Top? ==> (if c.up.Top? then !c.red else RootBlackCtx(c.up))
  }

  ghost predicate RedBlack(t: Shape) {
    NoRedRed(t) && !RootRed(t) && exists h: nat :: Height(t, h)
  }

  // ----- what balance is for -----

  /** The nodes on the longest path. */
  ghost function Tall(t: Shape): nat {
    match t
    case Leaf => 0
    case Bin(l, _, _, r) => 1 + if Tall(l) < Tall(r) then Tall(r) else Tall(l)
  }

  ghost function Pow2(h: nat): nat { if h == 0 then 1 else 2 * Pow2(h - 1) }

  lemma {:induction false} ManyNodes(t: Shape, h: nat)
    requires Height(t, h)
    ensures Pow2(h) <= |InOrder(t)| + 1
  {
    if t.Bin? {
      var below := if t.red then h else h - 1;
      ManyNodes(t.l, below);
      ManyNodes(t.r, below);
    }
  }

  lemma {:induction false} FewOnPath(t: Shape, h: nat)
    requires Height(t, h) && NoRedRed(t)
    ensures Tall(t) <= 2 * h + if RootRed(t) then 1 else 0
  {
    if t.Bin? {
      var below := if t.red then h else h - 1;
      FewOnPath(t.l, below);
      FewOnPath(t.r, below);
    }
  }

  /** The height of a red-black tree of n nodes is at most 2 lg (n + 1): there are at least
      2^h - 1 nodes and at most 2h of them on a path. */
  lemma StaysLow(t: Shape) returns (h: nat)
    requires RedBlack(t)
    ensures Tall(t) <= 2 * h && Pow2(h) <= |InOrder(t)| + 1
  {
    h :| Height(t, h);
    ManyNodes(t, h);
    FewOnPath(t, h);
  }

  /** Closing a context over a fitting tree gives a red-black tree. */
  lemma {:induction false} CloseBalanced(c: Ctx, t: Shape, h: nat)
    requires NoRedRedCtx(c) && HeightCtx(c, h) && RootBlackCtx(c)
    requires NoRedRed(t) && Height(t, h) && !(ParentRed(c) && RootRed(t)) && (c.Top? ==> !RootRed(t))
    ensures RedBlack(Plug(c, t))
  {
    match c
    case Top =>
    case InLeft(up, n, red, sib) => CloseBalanced(up, Bin(t, n, red, sib), if red then h else h + 1);
    case InRight(sib, n, red, up) => CloseBalanced(up, Bin(sib, n, red, t), if red then h else h + 1);
  }

  /** What a context promises when the whole is a red-black tree. */
  lemma {:induction false} OpenBalanced(c: Ctx, t: Shape) returns (h: nat)
    requires RedBlack(Plug(c, t))
    ensures NoRedRedCtx(c) && HeightCtx(c, h) && RootBlackCtx(c)
    ensures NoRedRed(t) && Height(t, h) && !(ParentRed(c) && RootRed(t)) && (c.Top? ==> !RootRed(t))
  {
    match c
    case Top => h :| Height(t, h);
    case InLeft(up, n, red, sib) =>
      var h1 := OpenBalanced(up, Bin(t, n, red, sib));
      h := if red then h1 else h1 - 1;
    case InRight(sib, n, red, up) =>
      var h1 := OpenBalanced(up, Bin(sib, n, red, t));
      h := if red then h1 else h1 - 1;
  }

  // ----- the moves -----

  ghost function RotL(t: Shape): Shape
    requires t.Bin? && t.r.Bin?
  {
    Bin(Bin(t.l, t.n, t.red, t.r.l), t.r.n, t.r.red, t.r.r)
  }

  ghost function RotR(t: Shape): Shape
    requires t.Bin? && t.l.Bin?
  {
    Bin(t.l.l, t.l.n, t.l.red, Bin(t.l.r, t.n, t.red, t.r))
  }

  ghost function Paint(t: Shape, red: bool): Shape { if t.Leaf? then t else t.(red := red) }

  lemma Rebracketed(a: seq<Node>, x: Node, b: seq<Node>, y: Node, c: seq<Node>)
    ensures (a + [x] + b) + [y] + c == a + [x] + (b + [y] + c)
  {
  }

  lemma RotLOrder(t: Shape)
    requires t.Bin? && t.r.Bin?
    ensures InOrder(RotL(t)) == InOrder(t)
  {
    assert InOrder(t.r) == InOrder(t.r.l) + [t.r.n] + InOrder(t.r.r);
    assert InOrder(RotL(t).l) == InOrder(t.l) + [t.n] + InOrder(t.r.l);
    Rebracketed(InOrder(t.l), t.n, InOrder(t.r.l), t.r.n, InOrder(t.r.r));
  }

  lemma RotROrder(t: Shape)
    requires t.Bin? && t.l.Bin?
    ensures InOrder(RotR(t)) == InOrder(t)
  {
    assert InOrder(t.l) == InOrder(t.l.l) + [t.l.n] + InOrder(t.l.r);
    assert InOrder(RotR(t).r) == InOrder(t.l.r) + [t.n] + InOrder(t.r);
    Rebracketed(InOrder(t.l.l), t.l.n, InOrder(t.l.r), t.n, InOrder(t.r));
  }

  lemma RotLApart(c: Ctx, t: Shape)
    requires Apart(c, t) && t.Bin? && t.r.Bin?
    ensures Apart(c, RotL(t)) && Nodes(RotL(t)) == Nodes(t)
  {
    var inner := Bin(t.l, t.n, t.red, t.r.l);
    assert Distinct(t.r) && Nodes(t.r) == Nodes(t.r.l) + {t.r.n} + Nodes(t.r.r);
    assert Distinct(inner) && Nodes(inner) == Nodes(t.l) + {t.n} + Nodes(t.r.l);
    assert RotL(t) == Bin(inner, t.r.n, t.r.red, t.r.r);
  }

  lemma RotRApart(c: Ctx, t: Shape)
    requires Apart(c, t) && t.Bin? && t.l.Bin?
    ensures Apart(c, RotR(t)) && Nodes(RotR(t)) == Nodes(t)
  {
    var inner := Bin(t.l.r, t.n, t.red, t.r);
    assert Distinct(t.l) && Nodes(t.l) == Nodes(t.l.l) + {t.l.n} + Nodes(t.l.r);
    assert Distinct(inner) && Nodes(inner) == Nodes(t.l.r) + {t.n} + Nodes(t.r);
    assert RotR(t) == Bin(t.l.l, t.l.n, t.l.red, inner);
  }

  /** The pieces a rotation rearranges, pairwise separate. */
  ghost predicate Pieces(c: Ctx, x: Node, y: Node, a: Shape, b: Shape, d: Shape) {
    && DistinctCtx(c) && Distinct(a) && Distinct(b) && Distinct(d)
    && x != y && {x, y} !! CtxNodes(c) && {x, y} !! Nodes(a) && {x, y} !! Nodes(b) && {x, y} !! Nodes(d)
    && CtxNodes(c) !! Nodes(a) && CtxNodes(c) !! Nodes(b) && CtxNodes(c) !! Nodes(d)
    && Nodes(a) !! Nodes(b) && Nodes(a) !! Nodes(d) && Nodes(b) !! Nodes(d)
  }

  lemma PiecesL(c: Ctx, t: Shape)
    requires Apart(c, t) && t.Bin? && t.r.Bin?
    ensures Pieces(c, t.n, t.r.n, t.l, t.r.l, t.r.r)
    ensures Nodes(t) == Nodes(t.l) + {t.n} + Nodes(t.r.l) + {t.r.n} + Nodes(t.r.r)
  {
    assert Distinct(t.r) && Nodes(t.r) == Nodes(t.r.l) + {t.r.n} + Nodes(t.r.r);
    assert Nodes(t) == Nodes(t.l) + {t.n} + Nodes(t.r);
  }

  lemma PiecesR(c: Ctx, t: Shape)
    requires Apart(c, t) && t.Bin? && t.l.Bin?
    ensures Pieces(c, t.n, t.l.n, t.r, t.l.r, t.l.l)
    ensures Nodes(t) == Nodes(t.r) + {t.n} + Nodes(t.l.r) + {t.l.n} + Nodes(t.l.l)
  {
    assert Distinct(t.l) && Nodes(t.l) == Nodes(t.l.l) + {t.l.n} + Nodes(t.l.r);
    assert Nodes(t) == Nodes(t.l) + {t.n} + Nodes(t.r);
  }

  ghost function Fill(c: Ctx, t: Shape): Shape
    requires !c.Top?
  {
    if c.InLeft? then Bin(t, c.n, c.red, c.sib) else Bin(c.sib, c.n, c.red, t)
  }

  ghost function Depth(c: Ctx): nat { if c.Top? then 0 else 1 + Depth(c.up) }

  // ----- insertion: the only flaw is a red focus below a red parent -----

  ghost predicate Reddened(c: Ctx, t: Shape, h: nat) {
    && RootRed(t) && NoRedRed(t) && Height(t, h)
    && NoRedRedCtx(c) && HeightCtx(c, h) && RootBlackCtx(c)
  }

  /** Red parent and red uncle: both black, the grandparent red. */
  ghost function Recolored(c: Ctx, t: Shape): Shape
    requires !c.Top? && !c.up.Top?
  {
    var p, u := Paint(Fill(c, t), false), Paint(c.up.sib, false);
    if c.up.InLeft? then Bin(p, c.up.n, true, u) else Bin(u, c.up.n, true, p)
  }

  lemma RecoloredFits(c: Ctx, t: Shape, h: nat)
    requires Reddened(c, t, h) && ParentRed(c) && !c.up.Top? && RootRed(c.up.sib)
    ensures Reddened(c.up.up, Recolored(c, t), h + 1)
  {
    var p, u := Paint(Fill(c, t), false), Paint(c.up.sib, false);
    assert NoRedRedCtx(c.up) && HeightCtx(c.up, h) && RootBlackCtx(c.up) && !c.up.red;
    assert NoRedRed(p) && Height(p, h + 1);
    assert NoRedRed(u) && Height(u, h + 1);
  }

  /** After the rotations: `e` red below a black `p`, whose other child is the old grandparent. */
  lemma RotatedLeftFits(cg: Ctx, e: Shape, p: Node, g: Node, s: Shape, u: Shape, h: nat)
    requires RootRed(e) && NoRedRed(e) && Height(e, h) && NoRedRed(s) && Height(s, h) && !RootRed(s)
    requires NoRedRed(u) && Height(u, h) && !RootRed(u)
    requires NoRedRedCtx(cg) && HeightCtx(cg, h + 1) && (!cg.Top? ==> RootBlackCtx(cg))
    ensures Reddened(InLeft(cg, p, false, Bin(s, g, true, u)), e, h)
  {
  }

  /** After the rotations: `e` red below a black `p`, whose other child is the old grandparent. */
  lemma RotatedRightFits(cg: Ctx, e: Shape, p: Node, g: Node, s: Shape, u: Shape, h: nat)
    requires RootRed(e) && NoRedRed(e) && Height(e, h) && NoRedRed(s) && Height(s, h) && !RootRed(s)
    requires NoRedRed(u) && Height(u, h) && !RootRed(u)
    requires NoRedRedCtx(cg) && HeightCtx(cg, h + 1) && (!cg.Top? ==> RootBlackCtx(cg))
    ensures Reddened(InRight(Bin(u, g, true, s), p, false, cg), e, h)
  {
  }

  /** Blackening the root of what insertion leaves gives a red-black tree. */
  lemma BlackenedBalanced(c: Ctx, t: Shape, h: nat)
    requires Reddened(c, t, h) && !ParentRed(c)
    ensures RedBlack(Paint(Plug(c, t), false))
  {
    if c.Top? {
      assert Height(Paint(t, false), h + 1);
    } else {
      CloseBalanced(c, t, h);
      PaintBlack(Plug(c, t));
    }
  }

  lemma PaintBlack(t: Shape)
    requires !RootRed(t)
    ensures Paint(t, false) == t
  {
  }

  // ----- removal: the focus is one black short -----

  ghost predicate Short(c: Ctx, t: Shape, h: nat) {
    && NoRedRed(Paint(t, false)) && Height(t, h)
    && NoRedRedCtx(c) && HeightCtx(c, h + 1) && RootBlackCtx(c)
  }

  /** A black node in a context with this much height cannot be missing. */
  lemma SiblingExists(c: Ctx, t: Shape, h: nat)
    requires Short(c, t, h) && !c.Top?
    ensures c.sib.Bin? && (!c.sib.red ==> Height(c.sib.l, h) && Height(c.sib.r, h)) && NoRedRed(c.sib)
    ensures c.sib.red ==> !c.red && c.sib.l.Bin? && c.sib.r.Bin? && !c.sib.l.red && !c.sib.r.red
  {
    assert NoRedRedCtx(c) && HeightCtx(c, h + 1);
    assert Height(c.sib, h + 1) && NoRedRed(c.sib);
    assert c.sib.red ==> Height(c.sib.l, h + 1) && Height(c.sib.r, h + 1) && !RootRed(c.sib.l) && !RootRed(c.sib.r);
  }

  /** A red sibling is rotated above the parent; the new sibling is black. */
  lemma RedSiblingFits(c: Ctx, t: Shape, h: nat)
    requires Short(c, t, h) && !c.Top? && c.sib.Bin? && c.sib.red
    ensures c.InLeft? ==> Short(InLeft(InLeft(c.up, c.sib.n, false, c.sib.r), c.n, true, c.sib.l), t, h)
    ensures c.InRight? ==> Short(InRight(c.sib.r, c.n, true, InRight(c.sib.l, c.sib.n, false, c.up)), t, h)
  {
    assert NoRedRed(c.sib.l) && NoRedRed(c.sib.r) && Height(c.sib.l, h + 1) && Height(c.sib.r, h + 1) && !c.red;
    assert !RootRed(c.sib.l) && !RootRed(c.sib.r);
  }

  /** A black sibling with black children turns red and the shortage moves up. */
  lemma BlackNephewsFit(c: Ctx, t: Shape, h: nat)
    requires Short(c, t, h) && !c.Top? && !RootRed(t) && c.sib.Bin? && !c.sib.red && !RootRed(c.sib.l)
      && !RootRed(c.sib.r)
    ensures c.InLeft? ==> Short(c.up, Bin(t, c.n, c.red, Paint(c.sib, true)), if c.red then h else h + 1)
    ensures c.InRight? ==> Short(c.up, Bin(Paint(c.sib, true), c.n, c.red, t), if c.red then h else h + 1)
  {
    assert NoRedRed(t) by { PaintBlack(t); }
    assert Height(c.sib.l, h) && Height(c.sib.r, h);
    assert NoRedRed(Paint(c.sib, true)) && Height(Paint(c.sib, true), h);
  }

  /** A red outer nephew `d` makes up for the shortage. */
  lemma BorrowedHeight(c: Ctx, t: Shape, h: nat, s: Node, b: Shape, d: Shape) returns (k: nat)
    requires Short(c, t, h) && !c.Top? && !RootRed(t)
    requires NoRedRed(b) && Height(b, h) && NoRedRed(d) && Height(d, h) && RootRed(d)
    ensures k == if c.red then h + 1 else h + 2
    ensures var f := Bin(Bin(t, c.n, false, b), s, c.red, Paint(d, false)); Height(f, k) && NoRedRed(f)
    ensures var f := Bin(Paint(d, false), s, c.red, Bin(b, c.n, false, t)); Height(f, k) && NoRedRed(f)
  {
    hide NoRedRedCtx, HeightCtx, RootBlackCtx;
    PaintBlack(t);
    var d', x, y := Paint(d, false), Bin(t, c.n, false, b), Bin(b, c.n, false, t);
    k := if c.red then h + 1 else h + 2;
    assert NoRedRed(d') && Height(d', h + 1);
    assert Height(x, h + 1) && Height(y, h + 1) && NoRedRed(x) && NoRedRed(y);
  }

  lemma BorrowedBalanced(c: Ctx, t: Shape, h: nat, s: Node, b: Shape, d: Shape)
    requires Short(c, t, h) && !c.Top? && !RootRed(t)
    requires NoRedRed(b) && Height(b, h) && NoRedRed(d) && Height(d, h) && RootRed(d)
    ensures RedBlack(Plug(c.up, Bin(Bin(t, c.n, false, b), s, c.red, Paint(d, false))))
    ensures RedBlack(Plug(c.up, Bin(Paint(d, false), s, c.red, Bin(b, c.n, false, t))))
  {
    var k := BorrowedHeight(c, t, h, s, b, d);
    var f, g := Bin(Bin(t, c.n, false, b), s, c.red, Paint(d, false)),
      Bin(Paint(d, false), s, c.red, Bin(b, c.n, false, t));
    assert NoRedRedCtx(c.up) && HeightCtx(c.up, k) && (c.red ==> !ParentRed(c.up));
    assert c.up.Top? ==> !c.red;
    hide NoRedRed, Height;
    CloseBalanced(c.up, f, k);
    CloseBalanced(c.up, g, k);
  }

  /** Where the loop stops, blackening the focus restores the balance. */
  lemma ShortEnds(c: Ctx, t: Shape, h: nat)
    requires Short(c, t, h) && (RootRed(t) || c.Top?)
    ensures RedBlack(Plug(c, Paint(t, false)))
  {
    var t' := Paint(t, false);
    if RootRed(t) {
      assert Height(t', h + 1);
      CloseBalanced(c, t', h + 1);
    } else {
      PaintBlack(t);
      assert Height(t', h);
    }
  }

  /** What the two nephews of a black sibling offer, before and after the inner one is turned out. */
  lemma NephewsFit(c: Ctx, t: Shape, h: nat)
    requires Short(c, t, h) && !c.Top? && c.sib.Bin? && !c.sib.red
    ensures NoRedRed(c.sib.l) && Height(c.sib.l, h) && NoRedRed(c.sib.r) && Height(c.sib.r, h)
    ensures c.sib.l.Bin? && c.sib.l.red ==>
      NoRedRed(c.sib.l.l) && Height(c.sib.l.l, h) && NoRedRed(c.sib.l.r) && Height(c.sib.l.r, h) && !RootRed(c.sib.l.l)
        && !RootRed(c.sib.l.r)
    ensures c.sib.r.Bin? && c.sib.r.red ==>
      NoRedRed(c.sib.r.l) && Height(c.sib.r.l, h) && NoRedRed(c.sib.r.r) && Height(c.sib.r.r, h) && !RootRed(c.sib.r.l)
        && !RootRed(c.sib.r.r)
  {
    assert NoRedRedCtx(c) && HeightCtx(c, h + 1);
    assert Height(c.sib, h + 1) && NoRedRed(c.sib);
  }

  lemma RedJoin(a: Shape, n: Node, b: Shape, h: nat)
    requires NoRedRed(a) && Height(a, h) && !RootRed(a) && NoRedRed(b) && Height(b, h) && !RootRed(b)
    ensures NoRedRed(Bin(a, n, true, b)) && Height(Bin(a, n, true, b), h)
  {
  }

  /** Only the sibling differs, and the new one is as good. */
  lemma SiblingReplaced(c: Ctx, c': Ctx, t: Shape, h: nat)
    requires Short(c, t, h) && !c.Top? && !c'.Top? && c'.up == c.up && c'.red == c.red
    requires NoRedRed(c'.sib) && Height(c'.sib, h + 1) && !RootRed(c'.sib)
    ensures Short(c', t, h)
  {
  }

  // ----- taking a node out -----

  /** The context `rc` set below the hole of `out`. */
  ghost function Under(rc: Ctx, out: Ctx): Ctx {
    match rc
    case Top => out
    case InLeft(up, n, red, sib) => InLeft(Under(up, out), n, red, sib)
    case InRight(sib, n, red, up) => InRight(sib, n, red, Under(up, out))
  }

  /** The descent to the leftmost node only turns left. */
  ghost predicate AllLeft(rc: Ctx) { rc.Top? || (rc.InLeft? && AllLeft(rc.up)) }

  lemma {:induction false} UnderLeft(rc: Ctx, out: Ctx)
    requires AllLeft(rc)
    ensures Before(Under(rc, out)) == Before(out) && After(Under(rc, out)) == After(rc) + After(out)
  {
    if !rc.Top? { UnderLeft(rc.up, out); }
  }

  /** Balance does not depend on which node stands where. */
  lemma {:induction false} SameColours(rc: Ctx, l: Shape, a: Node, b: Node, red: bool, c: Ctx, h: nat)
    requires var k := Under(rc, InRight(l, a, red, c)); NoRedRedCtx(k) && HeightCtx(k, h) && RootBlackCtx(k)
    ensures var k := Under(rc, InRight(l, b, red, c)); NoRedRedCtx(k) && HeightCtx(k, h) && RootBlackCtx(k) && !k.Top?
    ensures ParentRed(Under(rc, InRight(l, b, red, c))) == ParentRed(Under(rc, InRight(l, a, red, c)))
  {
    if !rc.Top? { SameColours(rc.up, l, a, b, red, c, if rc.red then h else h + 1); }
  }

  /** A context and a tree that together are red-black. */
  ghost predicate Fits(c: Ctx, t: Shape, h: nat) {
    && NoRedRedCtx(c) && HeightCtx(c, h) && RootBlackCtx(c)
    && NoRedRed(t) && Height(t, h) && !(ParentRed(c) && RootRed(t)) && (c.Top? ==> !RootRed(t))
  }

  /** Replacing a node by its only child: nothing is missing if the node was red. */
  lemma OnlyChildFits(c: Ctx, t: Shape, ch: Shape, h: nat)
    requires Fits(c, t, h) && t.Bin? && ((t.l.Leaf? && ch == t.r) || (t.r.Leaf? && ch == t.l))
    ensures t.red ==> RedBlack(Plug(c, ch))
    ensures !t.red ==> h > 0 && Short(c, ch, h - 1)
  {
    assert NoRedRed(ch) && (ch.Bin? ==> NoRedRed(ch.l) && NoRedRed(ch.r));
    if t.red {
      assert Height(ch, h) && !RootRed(ch);
      CloseBalanced(c, ch, h);
    }
  }

  /** Where a node of the tree is. */
  lemma {:induction false} Locate(t: Shape, n: Node) returns (c: Ctx, u: Shape)
    requires n in Nodes(t)
    ensures Plug(c, u) == t && u.Bin? && u.n == n
  {
    if t.n == n {
      c, u := Top, t;
    } else if n in Nodes(t.l) {
      c, u := Locate(t.l, n);
      PlugUnder(c, InLeft(Top, t.n, t.red, t.r), u);
      c := Under(c, InLeft(Top, t.n, t.red, t.r));
    } else {
      c, u := Locate(t.r, n);
      PlugUnder(c, InRight(t.l, t.n, t.red, Top), u);
      c := Under(c, InRight(t.l, t.n, t.red, Top));
    }
  }

  lemma {:induction false} PlugUnder(rc: Ctx, out: Ctx, t: Shape)
    ensures Plug(Under(rc, out), t) == Plug(out, Plug(rc, t))
  {
    if !rc.Top? { PlugUnder(rc.up, out, Fill(rc, t)); }
  }

  lemma {:induction false} OutIn(rc: Ctx, out: Ctx)
    requires !out.Top?
    ensures out.n in CtxNodes(Under(rc, out))
  {
    if !rc.Top? { OutIn(rc.up, out); }
  }

  /** The parent of the hole after the node above the path has changed. */
  lemma AboveUnder(rc: Ctx, l: Shape, a: Node, b: Node, red: bool, c: Ctx)
    requires DistinctCtx(Under(rc, InRight(l, a, red, c)))
    ensures var k, k' := Under(rc, InRight(l, a, red, c)), Under(rc, InRight(l, b, red, c));
      Above(k') == if Above(k) == a then b else Above(k)
  {
    if !rc.Top? { OutIn(rc.up, InRight(l, a, red, c)); }
  }

  lemma PathParts(rc: Ctx, l: Shape, x: Node, red: bool, c: Ctx)
    requires AllLeft(rc)
    ensures Before(Under(rc, InRight(l, x, red, c))) == Before(c) + InOrder(l) + [x]
    ensures After(Under(rc, InRight(l, x, red, c))) == After(rc) + After(c)
  {
    UnderLeft(rc, InRight(l, x, red, c));
  }

  /** The balance when the successor, leftmost in the right subtree, is taken out and put in `t`'s place. */
  lemma SuccessorFits(c: Ctx, t: Shape, rc: Ctx, ti: Shape) returns (h: nat)
    requires RedBlack(Plug(c, t)) && t.Bin? && Plug(rc, ti) == t.r && ti.Bin? && ti.l == Leaf
    ensures var k' := Under(rc, InRight(t.l, ti.n, t.red, c));
      (ti.red ==> RedBlack(Plug(k', ti.r))) && (!ti.red ==> Short(k', ti.r, h))
  {
    var out := InRight(t.l, t.n, t.red, c);
    var k, k' := Under(rc, out), Under(rc, InRight(t.l, ti.n, t.red, c));
    PlugUnder(rc, out, ti);
    var h0 := OpenBalanced(k, ti);
    SameColours(rc, t.l, t.n, ti.n, t.red, c, h0);
    OnlyChildFits(k', ti, ti.r, h0);
    h := if ti.red then 0 else h0 - 1;
  }

  /** `s'` is `s` without `e`, everything else in the same order. */
  ghost predicate Removed(s: seq<Node>, e: Node, s': seq<Node>) {
    exists k :: 0 <= k < |s| && s[k] == e && s' == s[..k] + s[k + 1..]
  }

  lemma RemovedAt(a: seq<Node>, e: Node, b: seq<Node>)
    ensures Removed(a + [e] + b, e, a + b)
    ensures Sorted(a + [e] + b) ==> Sorted(a + b)
  {
    var s, k := a + [e] + b, |a|;
    assert s[..k] == a && s[k + 1..] == b && s[k] == e;
    if Sorted(s) {
      var s' := a + b;
      forall i, j | 0 <= i < j < |s'| ensures s'[i].key < s'[j].key {
        assert s'[i] == s[if i < k then i else i + 1] && s'[j] == s[if j < k then j else j + 1];
      }
    }
  }
}
