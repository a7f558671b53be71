/** The red-black tree operations over linked nodes. */
module RedBlackTree {
  import opened RedBlackShape
  import opened RedBlackMemory

  class Tree {
    var root: Node?
    ghost var shape: Shape

    /** A search tree in key order that is red-black, linked through all its nodes. */
    ghost predicate Valid()
      reads this, Nodes(shape)
    {
      Rep(Nodes(shape), Top, shape) && RedBlack(shape) && Sorted(Contents())
    }

    ghost function Contents(): seq<Node>
      reads this
    {
      InOrder(shape)
    }

    constructor ()
      ensures Valid() && Contents() == []
    {
      root, shape := null, Leaf;
      new;
      assert Height(shape, 0);
    }

    /** The nodes of `s` are exactly those of `t` in `c`, linked that way. */
    ghost predicate Rep(s: set<Node>, c: Ctx, t: Shape)
      reads this, s
    {
      CtxNodes(c) + Nodes(t) == s && Linked(FieldsOf(s), root, c, t)
    }

    static method PutLeft(x: Node, v: Node?, ghost s: set<Node>)
      requires x in s
      modifies x`left
      ensures x.left == v && FieldsOf(s) == old(FieldsOf(s)[x := FieldsOf(s)[x].(left := v)])
    {
      x.left := v;
    }

    static method PutRight(x: Node, v: Node?, ghost s: set<Node>)
      requires x in s
      modifies x`right
      ensures x.right == v && FieldsOf(s) == old(FieldsOf(s)[x := FieldsOf(s)[x].(right := v)])
    {
      x.right := v;
    }

    static method PutParent(x: Node, v: Node?, ghost s: set<Node>)
      requires x in s
      modifies x`parent
      ensures x.parent == v && FieldsOf(s) == old(FieldsOf(s)[x := FieldsOf(s)[x].(parent := v)])
    {
      x.parent := v;
    }

    static method PutRed(x: Node, v: bool, ghost s: set<Node>)
      requires x in s
      modifies x`red
      ensures x.red == v && FieldsOf(s) == old(FieldsOf(s)[x := FieldsOf(s)[x].(red := v)])
    {
      x.red := v;
    }

    method SetColor(x: Node, red: bool, ghost s: set<Node>, ghost c: Ctx, ghost t: Shape)
      requires t.Bin? && t.n == x && Rep(s, c, t)
      modifies x`red
      ensures Rep(s, c, Paint(t, red)) && Whole(c, Paint(t, red)) == Whole(c, t)
    {
      RootIn(t);
      ghost var m := FieldsOf(s);
      PutRed(x, red, s);
      PaintLinked(m, root, c, t, red);
    }

    /** Puts `y` where `x` hangs from `p`: in `p`'s child pointer, or as the root. */
    method Hang(p: Node?, x: Node, y: Node?, ghost s: set<Node>)
      requires p != null ==> p in s
      modifies this`root, s
      ensures FieldsOf(s) == Rehang(old(FieldsOf(s)), p, x, y) && root == NewRoot(old(root), p, y)
    {
      if p != null {
        if p.left == x { PutLeft(p, y, s); } else { PutRight(p, y, s); }
      } else {
        root := y;
      }
    }

    /** RB_ROTATE_LEFT: the field updates. */
    method SwingLeft(x: Node, ghost s: set<Node>) returns (tmp: Node)
      requires x in s && x.right != null && x.right in s && x.right != x
      requires x.right.left != null ==> x.right.left in s && x.right.left != x && x.right.left != x.right
      requires x.parent != null ==> x.parent in s && x.parent != x && x.parent != x.right
      modifies this`root, s
      ensures tmp == old(x.right)
      ensures FieldsOf(s) == RotLMemory(old(FieldsOf(s)), x, tmp, old(x.right.left))
      ensures root == NewRoot(old(root), old(x.parent), tmp)
    {
      tmp := x.right;
      var up, inner := x.parent, tmp.left;
      PutRight(x, inner, s);
      if inner != null { PutParent(inner, x, s); }
      PutParent(tmp, up, s);
      Hang(up, x, tmp, s);
      PutLeft(tmp, x, s);
      PutParent(x, tmp, s);
    }

    /** RB_ROTATE_LEFT on a linked tree. */
    method RotateLeft(x: Node, ghost s: set<Node>, ghost c: Ctx, ghost t: Shape) returns (tmp: Node)
      requires t.Bin? && t.n == x && t.r.Bin? && Rep(s, c, t)
      modifies this`root, s
      ensures Rep(s, c, RotL(t)) && Whole(c, RotL(t)) == Whole(c, t) && tmp == t.r.n
    {
      AroundLeft(s, c, t);
      ghost var m := FieldsOf(s);
      tmp := SwingLeft(x, s);
      RotLLinked(m, old(root), c, t);
    }

    /** The nodes a rotation touches are all in the tree. */
    lemma AroundLeft(s: set<Node>, c: Ctx, t: Shape)
      requires t.Bin? && t.r.Bin? && Rep(s, c, t)
      ensures var x, y, b := t.n, t.r.n, Ptr(t.r.l);
        && x in s && y in s && x != y && (b != null ==> b in s) && (Above(c) != null ==> Above(c) in s)
        && x.right == y && y.left == b && x.parent == Above(c) && b != x && b != y && Above(c) != x && Above(c) != y
    {
      PiecesL(c, t);
      RootIn(t.r.l);
      AboveIn(c);
      assert Shaped(FieldsOf(s), t.r, t.n);
    }

    /** RB_ROTATE_RIGHT: the field updates. */
    method SwingRight(x: Node, ghost s: set<Node>) returns (tmp: Node)
      requires x in s && x.left != null && x.left in s && x.left != x
      requires x.left.right != null ==> x.left.right in s && x.left.right != x && x.left.right != x.left
      requires x.parent != null ==> x.parent in s && x.parent != x && x.parent != x.left
      modifies this`root, s
      ensures tmp == old(x.left)
      ensures FieldsOf(s) == RotRMemory(old(FieldsOf(s)), x, tmp, old(x.left.right))
      ensures root == NewRoot(old(root), old(x.parent), tmp)
    {
      tmp := x.left;
      var up, inner := x.parent, tmp.right;
      PutLeft(x, inner, s);
      if inner != null { PutParent(inner, x, s); }
      PutParent(tmp, up, s);
      Hang(up, x, tmp, s);
      PutRight(tmp, x, s);
      PutParent(x, tmp, s);
    }

    /** RB_ROTATE_RIGHT on a linked tree. */
    method RotateRight(x: Node, ghost s: set<Node>, ghost c: Ctx, ghost t: Shape) returns (tmp: Node)
      requires t.Bin? && t.n == x && t.l.Bin? && Rep(s, c, t)
      modifies this`root, s
      ensures Rep(s, c, RotR(t)) && Whole(c, RotR(t)) == Whole(c, t) && tmp == t.l.n
    {
      AroundRight(s, c, t);
      ghost var m := FieldsOf(s);
      tmp := SwingRight(x, s);
      RotRLinked(m, old(root), c, t);
    }

    /** The nodes a rotation touches are all in the tree. */
    lemma AroundRight(s: set<Node>, c: Ctx, t: Shape)
      requires t.Bin? && t.l.Bin? && Rep(s, c, t)
      ensures var x, y, b := t.n, t.l.n, Ptr(t.l.r);
        && x in s && y in s && x != y && (b != null ==> b in s) && (Above(c) != null ==> Above(c) in s)
        && x.left == y && y.right == b && x.parent == Above(c) && b != x && b != y && Above(c) != x && Above(c) != y
    {
      PiecesR(c, t);
      RootIn(t.l.r);
      AboveIn(c);
      assert Shaped(FieldsOf(s), t.l, t.n);
    }

    // ----- moving the focus -----

    lemma Up(s: set<Node>, c: Ctx, t: Shape)
      requires !c.Top? && Rep(s, c, t)
      ensures Rep(s, c.up, Fill(c, t)) && Whole(c.up, Fill(c, t)) == Whole(c, t)
    {
      GoUp(FieldsOf(s), root, c, t);
    }

    lemma Left(s: set<Node>, c: Ctx, t: Shape)
      requires t.Bin? && Rep(s, c, t)
      ensures Rep(s, InLeft(c, t.n, t.red, t.r), t.l) && Whole(InLeft(c, t.n, t.red, t.r), t.l) == Whole(c, t)
    {
      GoLeft(FieldsOf(s), root, c, t);
    }

    lemma Right(s: set<Node>, c: Ctx, t: Shape)
      requires t.Bin? && Rep(s, c, t)
      ensures Rep(s, InRight(t.l, t.n, t.red, c), t.r) && Whole(InRight(t.l, t.n, t.red, c), t.r) == Whole(c, t)
    {
      GoRight(FieldsOf(s), root, c, t);
    }

    /** The fields of the node in focus and of its parent. */
    lemma Here(s: set<Node>, c: Ctx, t: Shape)
      requires Rep(s, c, t)
      ensures t.Bin? ==>
        t.n in s && t.n.left == Ptr(t.l) && t.n.right == Ptr(t.r) && t.n.parent == Above(c)
        && t.n.red == t.red
      ensures !c.Top? ==> c.n in s && c.n.parent == Above(c.up) && c.n.red == c.red
      ensures c.InLeft? ==> c.n.left == Ptr(t) && c.n.right == Ptr(c.sib)
      ensures c.InRight? ==> c.n.right == Ptr(t) && c.n.left == Ptr(c.sib)
      ensures t.Bin? || (!c.Top? && c.sib.Bin?) ==> Ptr(t) != if c.Top? then null else Ptr(c.sib)
      ensures c.Top? ==> root == Ptr(t)
    {
      RootIn(t);
      AboveIn(c);
      assert t.Bin? ==> FieldsOf(s)[t.n] == Fields(t.n.left, t.n.right, t.n.parent, t.n.red);
      assert !c.Top? ==> FieldsOf(s)[c.n] == Fields(c.n.left, c.n.right, c.n.parent, c.n.red);
    }

    // ----- RB_INSERT_COLOR -----

    /** Red uncle: recolour and go on two levels up. */
    method Recolor(tmp: Node, parent: Node, gparent: Node, ghost s: set<Node>, ghost c: Ctx, ghost t: Shape,
            ghost h: nat)
      requires Rep(s, c, t) && Reddened(c, t, h) && ParentRed(c) && !c.up.Top? && RootRed(c.up.sib)
      requires parent == c.n && gparent == c.up.n && tmp == c.up.sib.n
      modifies this`root, s
      ensures Rep(s, c.up.up, Recolored(c, t)) && Whole(c.up.up, Recolored(c, t)) == Whole(c, t)
      ensures Reddened(c.up.up, Recolored(c, t), h + 1)
    {
      ghost var cg, g, p, u := c.up.up, c.up.n, Fill(c, t), c.up.sib;
      ghost var p', u' := Paint(p, false), Paint(u, false);
      RecoloredFits(c, t, h);
      Up(s, c, t);
      Here(s, c.up, p);
      Up(s, c.up, p);
      if parent == gparent.left {
        Right(s, cg, Bin(p, g, false, u));
        SetColor(tmp, false, s, InRight(p, g, false, cg), u);
        Up(s, InRight(p, g, false, cg), u');
        Left(s, cg, Bin(p, g, false, u'));
        SetColor(parent, false, s, InLeft(cg, g, false, u'), p);
        Up(s, InLeft(cg, g, false, u'), p');
        SetColor(gparent, true, s, cg, Bin(p', g, false, u'));
      } else {
        Left(s, cg, Bin(u, g, false, p));
        SetColor(tmp, false, s, InLeft(cg, g, false, p), u);
        Up(s, InLeft(cg, g, false, p), u');
        Right(s, cg, Bin(u', g, false, p));
        SetColor(parent, false, s, InRight(u', g, false, cg), p);
        Up(s, InRight(u', g, false, cg), p');
        SetColor(gparent, true, s, cg, Bin(u', g, false, p'));
      }
    }

    /** Which child of its parent the focus is. */
    lemma Straight(s: set<Node>, c: Ctx, t: Shape)
      requires Rep(s, c, t) && !c.Top? && t.Bin?
      ensures c.InLeft? <==> c.n.left == t.n
      ensures c.InRight? <==> c.n.right == t.n
    {
      Here(s, c, t);
      RootIn(c.sib);
      RootIn(t);
    }

    /** The last steps on the left: paint, and rotate the grandparent down. */
    method FinishLeft(top: Node, gparent: Node, ghost s: set<Node>, ghost cg: Ctx, ghost u: Shape, ghost e: Shape,
            ghost sib: Shape)
      requires Rep(s, InLeft(cg, gparent, false, u), Bin(e, top, true, sib))
      modifies this`root, s
      ensures Rep(s, InLeft(cg, top, false, Bin(sib, gparent, true, u)), e)
      ensures Whole(InLeft(cg, top, false, Bin(sib, gparent, true, u)), e)
        == Whole(InLeft(cg, gparent, false, u), Bin(e, top, true, sib))
    {
      ghost var p, c := Bin(e, top, true, sib), InLeft(cg, gparent, false, u);
      SetColor(top, false, s, c, p);
      Up(s, c, Paint(p, false));
      ghost var tg := Bin(Paint(p, false), gparent, false, u);
      SetColor(gparent, true, s, cg, tg);
      var _ := RotateRight(gparent, s, cg, Paint(tg, true));
      Left(s, cg, Bin(e, top, false, Bin(sib, gparent, true, u)));
    }

    /** If the focus is the inner child, rotates the parent down, so that the red pair is on the outside. */
    method AlignLeft(elm: Node, parent: Node, ghost s: set<Node>, ghost c: Ctx, ghost t: Shape, ghost h: nat)
      returns (top: Node, elm': Node, ghost e: Shape, ghost sib: Shape)
      requires Rep(s, c, t) && Reddened(c, t, h) && ParentRed(c)
      requires elm == t.n && parent == c.n
      modifies this`root, s
      ensures Rep(s, c.up, Bin(e, top, true, sib)) && Whole(c.up, Bin(e, top, true, sib)) == Whole(c, t)
      ensures RootRed(e) && NoRedRed(e) && Height(e, h) && NoRedRed(sib) && Height(sib, h) && !RootRed(sib)
        && e.n == elm'
    {
      top, elm', e, sib := parent, elm, t, c.sib;
      Straight(s, c, t);
      Up(s, c, t);
      if parent.right == elm {
        var _ := RotateLeft(parent, s, c.up, Fill(c, t));
        top, elm' := elm, parent;
        e, sib := Bin(c.sib, parent, true, t.l), t.r;
      }
    }

    /** Black uncle, parent on the left: rotate; the focus stays on a red node, now below a black parent. */
    method RotateLeftCase(elm: Node, parent: Node, gparent: Node, ghost s: set<Node>, ghost c: Ctx, ghost t: Shape,
            ghost h: nat)
      returns (elm': Node, ghost c': Ctx, ghost t': Shape)
      requires Rep(s, c, t) && Reddened(c, t, h) && ParentRed(c) && c.up.InLeft? && !RootRed(c.up.sib)
      requires elm == t.n && parent == c.n && gparent == c.up.n
      modifies this`root, s
      ensures Rep(s, c', t') && Whole(c', t') == Whole(c, t) && Reddened(c', t', h) && !ParentRed(c')
      ensures !c'.Top? && Depth(c') < Depth(c) && t'.n == elm'
    {
      hide Linked, Whole;
      ghost var cg, u := c.up.up, c.up.sib;
      assert NoRedRedCtx(c.up) && HeightCtx(c.up, h) && RootBlackCtx(c.up) && !c.up.red;
      var top;
      ghost var e, sib;
      top, elm', e, sib := AlignLeft(elm, parent, s, c, t, h);
      FinishLeft(top, gparent, s, cg, u, e, sib);
      t', c' := e, InLeft(cg, top, false, Bin(sib, gparent, true, u));
      RotatedLeftFits(cg, e, top, gparent, sib, u, h);
    }

    /** The last steps on the right: paint, and rotate the grandparent down. */
    method FinishRight(top: Node, gparent: Node, ghost s: set<Node>, ghost cg: Ctx, ghost u: Shape, ghost e: Shape,
            ghost sib: Shape)
      requires Rep(s, InRight(u, gparent, false, cg), Bin(sib, top, true, e))
      modifies this`root, s
      ensures Rep(s, InRight(Bin(u, gparent, true, sib), top, false, cg), e)
      ensures Whole(InRight(Bin(u, gparent, true, sib), top, false, cg), e)
        == Whole(InRight(u, gparent, false, cg), Bin(sib, top, true, e))
    {
      ghost var p, c := Bin(sib, top, true, e), InRight(u, gparent, false, cg);
      SetColor(top, false, s, c, p);
      Up(s, c, Paint(p, false));
      ghost var tg := Bin(u, gparent, false, Paint(p, false));
      SetColor(gparent, true, s, cg, tg);
      var _ := RotateLeft(gparent, s, cg, Paint(tg, true));
      Right(s, cg, Bin(Bin(u, gparent, true, sib), top, false, e));
    }

    /** If the focus is the inner child, rotates the parent down, so that the red pair is on the outside. */
    method AlignRight(elm: Node, parent: Node, ghost s: set<Node>, ghost c: Ctx, ghost t: Shape, ghost h: nat)
      returns (top: Node, elm': Node, ghost e: Shape, ghost sib: Shape)
      requires Rep(s, c, t) && Reddened(c, t, h) && ParentRed(c)
      requires elm == t.n && parent == c.n
      modifies this`root, s
      ensures Rep(s, c.up, Bin(sib, top, true, e)) && Whole(c.up, Bin(sib, top, true, e)) == Whole(c, t)
      ensures RootRed(e) && NoRedRed(e) && Height(e, h) && NoRedRed(sib) && Height(sib, h) && !RootRed(sib)
        && e.n == elm'
    {
      top, elm', e, sib := parent, elm, t, c.sib;
      Straight(s, c, t);
      Up(s, c, t);
      if parent.left == elm {
        var _ := RotateRight(parent, s, c.up, Fill(c, t));
        top, elm' := elm, parent;
        e, sib := Bin(t.r, parent, true, c.sib), t.l;
      }
    }

    /** Black uncle, parent on the right: rotate; the focus stays on a red node, now below a black parent. */
    method RotateRightCase(elm: Node, parent: Node, gparent: Node, ghost s: set<Node>, ghost c: Ctx, ghost t: Shape,
            ghost h: nat)
      returns (elm': Node, ghost c': Ctx, ghost t': Shape)
      requires Rep(s, c, t) && Reddened(c, t, h) && ParentRed(c) && c.up.InRight? && !RootRed(c.up.sib)
      requires elm == t.n && parent == c.n && gparent == c.up.n
      modifies this`root, s
      ensures Rep(s, c', t') && Whole(c', t') == Whole(c, t) && Reddened(c', t', h) && !ParentRed(c')
      ensures !c'.Top? && Depth(c') < Depth(c) && t'.n == elm'
    {
      hide Linked, Whole;
      ghost var cg, u := c.up.up, c.up.sib;
      assert NoRedRedCtx(c.up) && HeightCtx(c.up, h) && RootBlackCtx(c.up) && !c.up.red;
      var top;
      ghost var e, sib;
      top, elm', e, sib := AlignRight(elm, parent, s, c, t, h);
      FinishRight(top, gparent, s, cg, u, e, sib);
      t', c' := e, InRight(Bin(u, gparent, true, sib), top, false, cg);
      RotatedRightFits(cg, e, top, gparent, sib, u, h);
    }

    /** RB_INSERT_COLOR. */
    method InsertColor(elm0: Node, ghost s: set<Node>, ghost c0: Ctx, ghost t0: Shape, ghost h0: nat)
      returns (ghost f: Shape)
      requires Rep(s, c0, t0) && Reddened(c0, t0, h0) && t0.n == elm0
      modifies this`root, s
      ensures Rep(s, Top, f) && InOrder(f) == Whole(c0, t0) && RedBlack(f)
    {
      var elm := elm0;
      ghost var c, t, h := c0, t0, h0;
      Here(s, c, t);
      while elm.parent != null && elm.parent.red
        invariant Rep(s, c, t) && Reddened(c, t, h) && t.n == elm && Whole(c, t) == Whole(c0, t0)
        invariant elm in s && elm.parent == Above(c) && (!c.Top? ==> c.n in s && c.n.red == c.red)
        decreases Depth(c)
      {
        elm, c, t, h := InsertStep(elm, s, c, t, h);
        Here(s, c, t);
      }
      f := Paint(Plug(c, t), false);
      AtRoot(s, c, t);
      SetColor(root, false, s, Top, Plug(c, t));
      BlackenedBalanced(c, t, h);
    }

    /** From the focus to the whole tree, which is not empty. */
    lemma AtRoot(s: set<Node>, c: Ctx, t: Shape)
      requires Rep(s, c, t) && t.Bin?
      ensures Rep(s, Top, Plug(c, t)) && InOrder(Plug(c, t)) == Whole(c, t)
      ensures Plug(c, t).Bin? && root == Plug(c, t).n
    {
      GoTop(FieldsOf(s), root, c, t);
      RootIn(t);
    }

    /** One pass of the loop of RB_INSERT_COLOR. */
    method InsertStep(elm: Node, ghost s: set<Node>, ghost c: Ctx, ghost t: Shape, ghost h: nat)
      returns (elm': Node, ghost c': Ctx, ghost t': Shape, ghost h': nat)
      requires Rep(s, c, t) && Reddened(c, t, h) && t.n == elm && ParentRed(c) && elm.parent == Above(c)
      modifies this`root, s
      ensures Rep(s, c', t') && Reddened(c', t', h') && t'.n == elm' && Whole(c', t') == Whole(c, t)
        && Depth(c') < Depth(c)
    {
      Grandparent(c, t, h);
      hide Linked, Whole, Reddened, Depth, Plug;
      var parent := elm.parent;
      Here(s, c, t);
      Up(s, c, t);
      Here(s, c.up, Fill(c, t));
      Straight(s, c.up, Fill(c, t));
      var gparent := parent.parent;
      if parent == gparent.left {
        elm', c', t', h' := InsertStepLeft(elm, parent, gparent, s, c, t, h);
      } else {
        elm', c', t', h' := InsertStepRight(elm, parent, gparent, s, c, t, h);
      }
    }

    method InsertStepLeft(elm: Node, parent: Node, gparent: Node, ghost s: set<Node>, ghost c: Ctx, ghost t: Shape,
            ghost h: nat)
      returns (elm': Node, ghost c': Ctx, ghost t': Shape, ghost h': nat)
      requires Rep(s, c, t) && Reddened(c, t, h) && ParentRed(c) && c.up.InLeft?
      requires elm == t.n && parent == c.n && gparent == c.up.n
      modifies this`root, s
      ensures Rep(s, c', t') && Reddened(c', t', h') && t'.n == elm' && Whole(c', t') == Whole(c, t)
        && Depth(c') < Depth(c)
    {
      Grandparent(c, t, h);
      hide Linked, Whole, Reddened, Depth, Plug, Nodes, CtxNodes;
      Up(s, c, t);
      Here(s, c.up, Fill(c, t));
      Sibling(s, c, t);
      var tmp := gparent.right;
      if tmp != null && tmp.red {
        Recolor(tmp, parent, gparent, s, c, t, h);
        elm', c', t', h' := gparent, c.up.up, Recolored(c, t), h + 1;
        return;
      }
      elm', c', t' := RotateLeftCase(elm, parent, gparent, s, c, t, h);
      h' := h;
    }

    method InsertStepRight(elm: Node, parent: Node, gparent: Node, ghost s: set<Node>, ghost c: Ctx, ghost t: Shape,
            ghost h: nat)
      returns (elm': Node, ghost c': Ctx, ghost t': Shape, ghost h': nat)
      requires Rep(s, c, t) && Reddened(c, t, h) && ParentRed(c) && c.up.InRight?
      requires elm == t.n && parent == c.n && gparent == c.up.n
      modifies this`root, s
      ensures Rep(s, c', t') && Reddened(c', t', h') && t'.n == elm' && Whole(c', t') == Whole(c, t)
        && Depth(c') < Depth(c)
    {
      Grandparent(c, t, h);
      hide Linked, Whole, Reddened, Depth, Plug, Nodes, CtxNodes;
      Up(s, c, t);
      Here(s, c.up, Fill(c, t));
      Sibling(s, c, t);
      var tmp := gparent.left;
      if tmp != null && tmp.red {
        Recolor(tmp, parent, gparent, s, c, t, h);
        elm', c', t', h' := gparent, c.up.up, Recolored(c, t), h + 1;
        return;
      }
      elm', c', t' := RotateRightCase(elm, parent, gparent, s, c, t, h);
      h' := h;
    }

    /** A red parent is not the root. */
    lemma Grandparent(c: Ctx, t: Shape, h: nat)
      requires Reddened(c, t, h) && ParentRed(c)
      ensures !c.up.Top? && Depth(c.up.up) < Depth(c)
    {
    }

    /** The colour of the parent's sibling. */
    lemma Sibling(s: set<Node>, c: Ctx, t: Shape)
      requires Rep(s, c, t) && !c.Top? && !c.up.Top?
      ensures c.up.sib.Bin? ==> c.up.sib.n in s && c.up.sib.n.red == c.up.sib.red
    {
      var m, u := FieldsOf(s), c.up.sib;
      RootIn(u);
      assert Held(m, root, c.up, c.n) && Shaped(m, u, c.up.n);
      assert u.Bin? ==> m[u.n] == Fields(u.n.left, u.n.right, u.n.parent, u.n.red);
    }

    // ----- RB_REMOVE_COLOR -----

    /** Red sibling on the other side: black it, red the parent, rotate. */
    method RedSiblingLeft(parent: Node, tmp: Node, ghost s: set<Node>, ghost c: Ctx, ghost t: Shape)
      returns (ghost c': Ctx)
      requires Rep(s, c, t) && c.InLeft? && RootRed(c.sib) && !c.red && parent == c.n && tmp == c.sib.n
      modifies this`root, s
      ensures c' == InLeft(InLeft(c.up, tmp, false, c.sib.r), parent, true, c.sib.l)
      ensures Rep(s, c', t) && Whole(c', t) == Whole(c, t)
    {
      hide Linked, Whole;
      ghost var u, g := c.sib, Bin(t, parent, false, c.sib);
      Up(s, c, t);
      Right(s, c.up, g);
      SetColor(tmp, false, s, InRight(t, parent, false, c.up), u);
      Up(s, InRight(t, parent, false, c.up), Paint(u, false));
      SetColor(parent, true, s, c.up, Bin(t, parent, false, Paint(u, false)));
      var _ := RotateLeft(parent, s, c.up, Bin(t, parent, true, Paint(u, false)));
      Left(s, c.up, Bin(Bin(t, parent, true, u.l), tmp, false, u.r));
      c' := InLeft(InLeft(c.up, tmp, false, u.r), parent, true, u.l);
      Left(s, InLeft(c.up, tmp, false, u.r), Bin(t, parent, true, u.l));
    }

    /** Black sibling with black children: red it. */
    method RedderSiblingLeft(parent: Node, tmp: Node, ghost s: set<Node>, ghost c: Ctx, ghost t: Shape)
      requires Rep(s, c, t) && c.InLeft? && c.sib.Bin? && tmp == c.sib.n && parent == c.n
      modifies this`root, s
      ensures Rep(s, c.up, Bin(t, c.n, c.red, Paint(c.sib, true)))
      ensures Whole(c.up, Bin(t, c.n, c.red, Paint(c.sib, true))) == Whole(c, t)
    {
      hide Linked, Whole;
      Up(s, c, t);
      Right(s, c.up, Bin(t, c.n, c.red, c.sib));
      SetColor(tmp, true, s, InRight(t, c.n, c.red, c.up), c.sib);
      Up(s, InRight(t, c.n, c.red, c.up), Paint(c.sib, true));
    }

    /** Inner red nephew only: turn it into the sibling, with the old sibling red outside it. */
    method OuterLeft(tmp: Node, ghost s: set<Node>, ghost c: Ctx, ghost t: Shape) returns (oinner: Node, ghost c': Ctx)
      requires Rep(s, c, t) && c.InLeft? && c.sib.Bin? && tmp == c.sib.n && RootRed(c.sib.l) && !c.sib.red
      modifies this`root, s
      ensures oinner == c.sib.l.n
      ensures c' == InLeft(c.up, c.n, c.red, Bin(c.sib.l.l, oinner, false, Bin(c.sib.l.r, tmp, true, c.sib.r)))
      ensures Rep(s, c', t) && Whole(c', t) == Whole(c, t)
    {
      hide Linked, Whole;
      ghost var u, k := c.sib, InRight(t, c.n, c.red, c.up);
      ghost var i := u.l;
      Up(s, c, t);
      Right(s, c.up, Bin(t, c.n, c.red, u));
      Here(s, k, u);
      oinner := tmp.left;
      Left(s, k, u);
      SetColor(oinner, false, s, InLeft(k, tmp, false, u.r), i);
      Up(s, InLeft(k, tmp, false, u.r), Paint(i, false));
      SetColor(tmp, true, s, k, Bin(Paint(i, false), tmp, false, u.r));
      var _ := RotateRight(tmp, s, k, Bin(Paint(i, false), tmp, true, u.r));
      ghost var u' := Bin(i.l, oinner, false, Bin(i.r, tmp, true, u.r));
      Up(s, k, u');
      c' := InLeft(c.up, c.n, c.red, u');
      Left(s, c.up, Bin(t, c.n, c.red, u'));
    }

    /** Outer red nephew: colours move round and the parent is rotated down. */
    method BorrowLeft(parent: Node, tmp: Node, ghost s: set<Node>, ghost c: Ctx, ghost t: Shape)
      requires Rep(s, c, t) && c.InLeft? && c.sib.Bin? && RootRed(c.sib.r) && parent == c.n && tmp == c.sib.n
      modifies this`root, s
      ensures Rep(s, c.up, Bin(Bin(t, parent, false, c.sib.l), tmp, c.red, Paint(c.sib.r, false)))
      ensures Whole(c.up, Bin(Bin(t, parent, false, c.sib.l), tmp, c.red, Paint(c.sib.r, false))) == Whole(c, t)
    {
      hide Linked, Whole;
      ghost var u, r, k := c.sib, c.red, InRight(t, parent, c.red, c.up);
      Here(s, c, t);
      Up(s, c, t);
      Right(s, c.up, Bin(t, parent, r, u));
      SetColor(tmp, parent.red, s, k, u);
      ghost var u1 := Paint(u, r);
      Up(s, k, u1);
      SetColor(parent, false, s, c.up, Bin(t, parent, r, u1));
      ghost var k1 := InRight(t, parent, false, c.up);
      Right(s, c.up, Bin(t, parent, false, u1));
      Here(s, k1, u1);
      Right(s, k1, u1);
      if tmp.right != null {
        SetColor(tmp.right, false, s, InRight(u.l, tmp, r, k1), u.r);
      }
      ghost var u2 := Bin(u.l, tmp, r, Paint(u.r, false));
      Up(s, InRight(u.l, tmp, r, k1), Paint(u.r, false));
      Up(s, k1, u2);
      var _ := RotateLeft(parent, s, c.up, Bin(t, parent, false, u2));
    }

    /** Red sibling on the other side: black it, red the parent, rotate. */
    method RedSiblingRight(parent: Node, tmp: Node, ghost s: set<Node>, ghost c: Ctx, ghost t: Shape)
      returns (ghost c': Ctx)
      requires Rep(s, c, t) && c.InRight? && RootRed(c.sib) && !c.red && parent == c.n && tmp == c.sib.n
      modifies this`root, s
      ensures c' == InRight(c.sib.r, parent, true, InRight(c.sib.l, tmp, false, c.up))
      ensures Rep(s, c', t) && Whole(c', t) == Whole(c, t)
    {
      hide Linked, Whole;
      ghost var u, g := c.sib, Bin(c.sib, parent, false, t);
      Up(s, c, t);
      Left(s, c.up, g);
      SetColor(tmp, false, s, InLeft(c.up, parent, false, t), u);
      Up(s, InLeft(c.up, parent, false, t), Paint(u, false));
      SetColor(parent, true, s, c.up, Bin(Paint(u, false), parent, false, t));
      var _ := RotateRight(parent, s, c.up, Bin(Paint(u, false), parent, true, t));
      Right(s, c.up, Bin(u.l, tmp, false, Bin(u.r, parent, true, t)));
      c' := InRight(u.r, parent, true, InRight(u.l, tmp, false, c.up));
      Right(s, InRight(u.l, tmp, false, c.up), Bin(u.r, parent, true, t));
    }

    /** Black sibling with black children: red it. */
    method RedderSiblingRight(parent: Node, tmp: Node, ghost s: set<Node>, ghost c: Ctx, ghost t: Shape)
      requires Rep(s, c, t) && c.InRight? && c.sib.Bin? && tmp == c.sib.n && parent == c.n
      modifies this`root, s
      ensures Rep(s, c.up, Bin(Paint(c.sib, true), c.n, c.red, t))
      ensures Whole(c.up, Bin(Paint(c.sib, true), c.n, c.red, t)) == Whole(c, t)
    {
      hide Linked, Whole;
      Up(s, c, t);
      Left(s, c.up, Bin(c.sib, c.n, c.red, t));
      SetColor(tmp, true, s, InLeft(c.up, c.n, c.red, t), c.sib);
      Up(s, InLeft(c.up, c.n, c.red, t), Paint(c.sib, true));
    }

    /** Inner red nephew only: turn it into the sibling, with the old sibling red outside it. */
    method OuterRight(tmp: Node, ghost s: set<Node>, ghost c: Ctx, ghost t: Shape) returns (oinner: Node, ghost c': Ctx)
      requires Rep(s, c, t) && c.InRight? && c.sib.Bin? && tmp == c.sib.n && RootRed(c.sib.r) && !c.sib.red
      modifies this`root, s
      ensures oinner == c.sib.r.n
      ensures c' == InRight(Bin(Bin(c.sib.l, tmp, true, c.sib.r.l), oinner, false, c.sib.r.r), c.n, c.red, c.up)
      ensures Rep(s, c', t) && Whole(c', t) == Whole(c, t)
    {
      hide Linked, Whole;
      ghost var u, k := c.sib, InLeft(c.up, c.n, c.red, t);
      ghost var i := u.r;
      Up(s, c, t);
      Left(s, c.up, Bin(u, c.n, c.red, t));
      Here(s, k, u);
      oinner := tmp.right;
      Right(s, k, u);
      SetColor(oinner, false, s, InRight(u.l, tmp, false, k), i);
      Up(s, InRight(u.l, tmp, false, k), Paint(i, false));
      SetColor(tmp, true, s, k, Bin(u.l, tmp, false, Paint(i, false)));
      var _ := RotateLeft(tmp, s, k, Bin(u.l, tmp, true, Paint(i, false)));
      ghost var u' := Bin(Bin(u.l, tmp, true, i.l), oinner, false, i.r);
      Up(s, k, u');
      c' := InRight(u', c.n, c.red, c.up);
      Right(s, c.up, Bin(u', c.n, c.red, t));
    }

    /** Outer red nephew: colours move round and the parent is rotated down. */
    method BorrowRight(parent: Node, tmp: Node, ghost s: set<Node>, ghost c: Ctx, ghost t: Shape)
      requires Rep(s, c, t) && c.InRight? && c.sib.Bin? && RootRed(c.sib.l) && parent == c.n && tmp == c.sib.n
      modifies this`root, s
      ensures Rep(s, c.up, Bin(Paint(c.sib.l, false), tmp, c.red, Bin(c.sib.r, parent, false, t)))
      ensures Whole(c.up, Bin(Paint(c.sib.l, false), tmp, c.red, Bin(c.sib.r, parent, false, t))) == Whole(c, t)
    {
      hide Linked, Whole;
      ghost var u, r, k := c.sib, c.red, InLeft(c.up, parent, c.red, t);
      Here(s, c, t);
      Up(s, c, t);
      Left(s, c.up, Bin(u, parent, r, t));
      SetColor(tmp, parent.red, s, k, u);
      ghost var u1 := Paint(u, r);
      Up(s, k, u1);
      SetColor(parent, false, s, c.up, Bin(u1, parent, r, t));
      ghost var k1 := InLeft(c.up, parent, false, t);
      Left(s, c.up, Bin(u1, parent, false, t));
      Here(s, k1, u1);
      Left(s, k1, u1);
      if tmp.left != null {
        SetColor(tmp.left, false, s, InLeft(k1, tmp, r, u.r), u.l);
      }
      ghost var u2 := Bin(Paint(u.l, false), tmp, r, u.r);
      Up(s, InLeft(k1, tmp, r, u.r), Paint(u.l, false));
      Up(s, k1, u2);
      var _ := RotateRight(parent, s, c.up, Bin(u2, parent, false, t));
    }

    /** The sibling and its children as the code reads them. */
    lemma SiblingHere(s: set<Node>, c: Ctx, t: Shape)
      requires Rep(s, c, t) && !c.Top? && c.sib.Bin?
      ensures c.sib.n in s && c.sib.n.red == c.sib.red && c.sib.n.left == Ptr(c.sib.l) && c.sib.n.right == Ptr(c.sib.r)
      ensures c.sib.l.Bin? ==> c.sib.l.n in s && c.sib.l.n.red == c.sib.l.red
      ensures c.sib.r.Bin? ==> c.sib.r.n in s && c.sib.r.n.red == c.sib.r.red
    {
      var m, u := FieldsOf(s), c.sib;
      RootIn(u);
      RootIn(u.l);
      RootIn(u.r);
      assert Held(m, root, c, Ptr(t)) && Shaped(m, u, c.n) && Shaped(m, u.l, u.n) && Shaped(m, u.r, u.n);
      assert m[u.n] == Fields(u.n.left, u.n.right, u.n.parent, u.n.red);
      assert u.l.Bin? ==> m[u.l.n] == Fields(u.l.n.left, u.l.n.right, u.l.n.parent, u.l.n.red);
      assert u.r.Bin? ==> m[u.r.n] == Fields(u.r.n.left, u.r.n.right, u.r.n.parent, u.r.n.red);
    }

    /** A black sibling with a red child: the shortage is made up and the loop ends. */
    method SettleLeft(parent: Node, tmp0: Node, ghost s: set<Node>, ghost c0: Ctx, ghost t: Shape, ghost h: nat)
      returns (ghost f: Shape)
      requires Rep(s, c0, t) && Short(c0, t, h) && c0.InLeft? && !RootRed(t) && c0.sib.Bin? && !c0.sib.red
      requires RootRed(c0.sib.l) || RootRed(c0.sib.r)
      requires parent == c0.n && tmp0 == c0.sib.n
      modifies this`root, s
      ensures Rep(s, Top, f) && InOrder(f) == Whole(c0, t) && RedBlack(f)
    {
      hide Linked, Whole, RedBlack, NoRedRedCtx, HeightCtx, RootBlackCtx;
      var tmp := tmp0;
      ghost var c := c0;
      SiblingHere(s, c, t);
      NephewsFit(c, t, h);
      if tmp.right == null || !tmp.right.red {
        ghost var i, d := c.sib.l, c.sib.r;
        RedJoin(i.l, tmp, d, h);
        RedJoin(d, tmp, i.r, h);
        tmp, c := OuterLeft(tmp, s, c, t);
        SiblingReplaced(c0, c, t, h);
        NephewsFit(c, t, h);
      }
      BorrowLeft(parent, tmp, s, c, t);
      ghost var k := Bin(Bin(t, parent, false, c.sib.l), tmp, c.red, Paint(c.sib.r, false));
      BorrowedBalanced(c, t, h, tmp, c.sib.l, c.sib.r);
      AtRoot(s, c.up, k);
      f := Plug(c.up, k);
    }

    /** A black sibling with a red child: the shortage is made up and the loop ends. */
    method SettleRight(parent: Node, tmp0: Node, ghost s: set<Node>, ghost c0: Ctx, ghost t: Shape, ghost h: nat)
      returns (ghost f: Shape)
      requires Rep(s, c0, t) && Short(c0, t, h) && c0.InRight? && !RootRed(t) && c0.sib.Bin? && !c0.sib.red
      requires RootRed(c0.sib.l) || RootRed(c0.sib.r)
      requires parent == c0.n && tmp0 == c0.sib.n
      modifies this`root, s
      ensures Rep(s, Top, f) && InOrder(f) == Whole(c0, t) && RedBlack(f)
    {
      hide Linked, Whole, RedBlack, NoRedRedCtx, HeightCtx, RootBlackCtx;
      var tmp := tmp0;
      ghost var c := c0;
      SiblingHere(s, c, t);
      NephewsFit(c, t, h);
      if tmp.left == null || !tmp.left.red {
        ghost var i, d := c.sib.r, c.sib.l;
        RedJoin(i.l, tmp, d, h);
        RedJoin(d, tmp, i.r, h);
        tmp, c := OuterRight(tmp, s, c, t);
        SiblingReplaced(c0, c, t, h);
        NephewsFit(c, t, h);
      }
      BorrowRight(parent, tmp, s, c, t);
      ghost var k := Bin(Paint(c.sib.l, false), tmp, c.red, Bin(c.sib.r, parent, false, t));
      BorrowedBalanced(c, t, h, tmp, c.sib.r, c.sib.l);
      AtRoot(s, c.up, k);
      f := Plug(c.up, k);
    }

    /** Passes left for RB_REMOVE_COLOR: a red focus ends the loop. */
    ghost function Steps(c: Ctx, t: Shape): nat { 2 * Depth(c) + if RootRed(t) then 0 else 1 }

    /** One pass of the loop, the short subtree on the left. */
    method RemoveStepLeft(parent: Node, ghost s: set<Node>, ghost c0: Ctx, ghost t: Shape, ghost h: nat)
      returns (done: bool, ghost f: Shape, ghost c': Ctx, ghost t': Shape, ghost h': nat)
      requires Rep(s, c0, t) && Short(c0, t, h) && c0.InLeft? && !RootRed(t) && parent == c0.n
      modifies this`root, s
      ensures done ==> Rep(s, Top, f) && InOrder(f) == Whole(c0, t) && RedBlack(f)
      ensures !done ==>
        Rep(s, c', t') && Whole(c', t') == Whole(c0, t) && Short(c', t', h') && t'.Bin?
        && t'.n == parent
      ensures !done ==> Steps(c', t') < Steps(c0, t)
    {
      hide Linked, Whole, RedBlack, NoRedRedCtx, HeightCtx, RootBlackCtx;
      ghost var c := c0;
      c', t', h', f := c, t, h, t;
      SiblingExists(c, t, h);
      Here(s, c, t);
      SiblingHere(s, c, t);
      var tmp := parent.right;
      if tmp.red {
        RedSiblingFits(c, t, h);
        c := RedSiblingLeft(parent, tmp, s, c, t);
        SiblingExists(c, t, h);
        Here(s, c, t);
        SiblingHere(s, c, t);
        tmp := parent.right;
      }
      if (tmp.left == null || !tmp.left.red) && (tmp.right == null || !tmp.right.red) {
        BlackNephewsFit(c, t, h);
        RedderSiblingLeft(parent, tmp, s, c, t);
        done := false;
        c', t', h' := c.up, Bin(t, c.n, c.red, Paint(c.sib, true)), if c.red then h else h + 1;
      } else {
        f := SettleLeft(parent, tmp, s, c, t, h);
        done := true;
      }
    }

    /** One pass of the loop, the short subtree on the right. */
    method RemoveStepRight(parent: Node, ghost s: set<Node>, ghost c0: Ctx, ghost t: Shape, ghost h: nat)
      returns (done: bool, ghost f: Shape, ghost c': Ctx, ghost t': Shape, ghost h': nat)
      requires Rep(s, c0, t) && Short(c0, t, h) && c0.InRight? && !RootRed(t) && parent == c0.n
      modifies this`root, s
      ensures done ==> Rep(s, Top, f) && InOrder(f) == Whole(c0, t) && RedBlack(f)
      ensures !done ==>
        Rep(s, c', t') && Whole(c', t') == Whole(c0, t) && Short(c', t', h') && t'.Bin?
        && t'.n == parent
      ensures !done ==> Steps(c', t') < Steps(c0, t)
    {
      hide Linked, Whole, RedBlack, NoRedRedCtx, HeightCtx, RootBlackCtx;
      ghost var c := c0;
      c', t', h', f := c, t, h, t;
      SiblingExists(c, t, h);
      Here(s, c, t);
      SiblingHere(s, c, t);
      var tmp := parent.left;
      if tmp.red {
        RedSiblingFits(c, t, h);
        c := RedSiblingRight(parent, tmp, s, c, t);
        SiblingExists(c, t, h);
        Here(s, c, t);
        SiblingHere(s, c, t);
        tmp := parent.left;
      }
      if (tmp.left == null || !tmp.left.red) && (tmp.right == null || !tmp.right.red) {
        BlackNephewsFit(c, t, h);
        RedderSiblingRight(parent, tmp, s, c, t);
        done := false;
        c', t', h' := c.up, Bin(Paint(c.sib, true), c.n, c.red, t), if c.red then h else h + 1;
      } else {
        f := SettleRight(parent, tmp, s, c, t, h);
        done := true;
      }
    }

    /** The focus, its place below its parent, and the root as the code reads them. */
    lemma Looking(s: set<Node>, c: Ctx, t: Shape)
      requires Rep(s, c, t)
      ensures t.Bin? ==> t.n in s && t.n.red == t.red && t.n.parent == Above(c)
      ensures Ptr(t) == root <==> c.Top?
      ensures !c.Top? ==> c.n in s && (t.Bin? || c.sib.Bin? ==> (c.n.left == Ptr(t) <==> c.InLeft?))
    {
      Here(s, c, t);
      if !c.Top? {
        RootAbove(FieldsOf(s), root, c, Ptr(t));
        RootIn(t);
        RootIn(c.sib);
      }
    }

    /** Painting the root of a red-black tree black changes nothing. */
    method BlackRoot(x: Node?, ghost s: set<Node>, ghost f: Shape)
      requires Rep(s, Top, f) && RedBlack(f) && x == root
      modifies this`root, s
      ensures Rep(s, Top, f)
    {
      Here(s, Top, f);
      PaintBlack(f);
      if x != null { SetColor(x, false, s, Top, f); }
    }

    /** RB_REMOVE_COLOR. */
    method RemoveColor(parent0: Node?, elm0: Node?, ghost s: set<Node>, ghost c0: Ctx, ghost t0: Shape, ghost h0: nat)
      returns (ghost f: Shape)
      requires Rep(s, c0, t0) && Short(c0, t0, h0) && elm0 == Ptr(t0) && parent0 == Above(c0)
      modifies this`root, s
      ensures Rep(s, Top, f) && InOrder(f) == Whole(c0, t0) && RedBlack(f)
    {
      hide Linked, Whole, RedBlack, NoRedRedCtx, HeightCtx, RootBlackCtx;
      var elm, parent := elm0, parent0;
      ghost var c, t, h := c0, t0, h0;
      Looking(s, c, t);
      while (elm == null || !elm.red) && elm != root
        invariant Rep(s, c, t) && Short(c, t, h) && Whole(c, t) == Whole(c0, t0) && elm == Ptr(t) && parent == Above(c)
        invariant elm != null ==> elm in s && elm.red == t.red
        invariant elm == root <==> c.Top?
        decreases Steps(c, t)
      {
        var done;
        SiblingExists(c, t, h);
        Looking(s, c, t);
        if parent.left == elm {
          done, f, c, t, h := RemoveStepLeft(parent, s, c, t, h);
        } else {
          done, f, c, t, h := RemoveStepRight(parent, s, c, t, h);
        }
        if done {
          BlackRoot(root, s, f);
          return;
        }
        Looking(s, c, t);
        elm := parent;
        parent := elm.parent;
      }
      ShortEnds(c, t, h);
      if elm != null { SetColor(elm, false, s, c, t); }
      f := Plug(c, Paint(t, false));
      AtTop(s, c, Paint(t, false));
    }

    lemma AtTop(s: set<Node>, c: Ctx, t: Shape)
      requires Rep(s, c, t)
      ensures Rep(s, Top, Plug(c, t)) && InOrder(Plug(c, t)) == Whole(c, t)
    {
      GoTop(FieldsOf(s), root, c, t);
    }

    // ----- RB_FIND and RB_INSERT -----

    /** One step down: everything on the side not taken is on the right side of `key`. */
    lemma Descend(c: Ctx, t: Shape, key: int)
      requires t.Bin? && Sorted(Whole(c, t)) && Between(c, key)
      ensures key < t.n.key ==> Between(InLeft(c, t.n, t.red, t.r), key)
      ensures key > t.n.key ==> Between(InRight(t.l, t.n, t.red, c), key)
    {
      var w, b, l := Whole(c, t), |Before(c)|, |InOrder(t.l)|;
      assert w[b + l] == t.n;
      forall n | n in InOrder(t.l) ensures n.key < t.n.key {
        var i :| 0 <= i < l && InOrder(t.l)[i] == n;
        assert w[b + i] == n;
      }
      forall n | n in InOrder(t.r) ensures t.n.key < n.key {
        var i :| 0 <= i < |InOrder(t.r)| && InOrder(t.r)[i] == n;
        assert w[b + l + 1 + i] == n;
      }
    }

    /** The nodes listed are the nodes linked. */
    lemma IsMember(n: Node)
      ensures n in Contents() <==> n in Nodes(shape)
    {
      InOrderNodes(shape);
    }

    /** The node with this key, if one is linked. */
    method Find(key: int) returns (found: Node?)
      requires Valid()
      ensures found != null ==> found in Nodes(shape) && found in Contents() && found.key == key
      ensures found == null ==> forall n :: n in Nodes(shape) ==> n.key != key
    {
      hide Linked, Whole, Sorted, Between, Before, After, InOrder, RedBlack;
      var tmp := root;
      ghost var s := Nodes(shape);
      ghost var c, t := Top, shape;
      FromTop(shape, key);
      Here(s, c, t);
      while tmp != null
        invariant Rep(s, c, t) && Whole(c, t) == Contents() && Between(c, key) && tmp == Ptr(t)
        invariant tmp != null ==> tmp in s
        decreases t
      {
        Here(s, c, t);
        Descend(c, t, key);
        if key < tmp.key {
          Left(s, c, t);
          tmp, c, t := tmp.left, InLeft(c, t.n, t.red, t.r), t.l;
        } else if key > tmp.key {
          Right(s, c, t);
          tmp, c, t := tmp.right, InRight(t.l, t.n, t.red, c), t.r;
        } else {
          InWhole(c, t);
          return tmp;
        }
        Here(s, c, t);
      }
      assert t == Leaf;
      EmptyPlace(c, key);
      forall n | n in Nodes(shape) ensures n.key != key { IsMember(n); }
      return null;
    }

    /** RB_SET, and the link from the parent found by the descent. */
    method Link(elm: Node, parent: Node?, comp: int, ghost s: set<Node>, ghost c: Ctx)
      requires Rep(s, c, Leaf) && elm !in s && parent == Above(c)
      requires (c.InLeft? ==> comp < 0) && (c.InRight? ==> comp > 0)
      modifies this`root, s, elm
      ensures Rep(s + {elm}, c, Bin(Leaf, elm, true, Leaf))
    {
      ghost var m := FieldsOf(s);
      AboveIn(c);
      NewLeafLinked(m, root, c, elm);
      OneNode(c, elm);
      SetBefore(m, c, elm, Fields(null, null, parent, true));
      hide Linked, Nodes, CtxNodes, PutChild;
      SetFields(elm, parent, s);
      HangNew(elm, parent, comp, s + {elm}, c);
    }

    /** The pointer to the new node: in its parent, on the side of the comparison, or as the root. */
    method HangNew(elm: Node, parent: Node?, comp: int, ghost s: set<Node>, ghost c: Ctx)
      requires parent == Above(c) && (parent != null ==> parent in s) && (c.InLeft? ==> comp < 0)
        && (c.InRight? ==> comp > 0)
      modifies this`root, s
      ensures FieldsOf(s) == PutChild(old(FieldsOf(s)), c, elm) && root == NewRoot(old(root), parent, elm)
    {
      if parent != null {
        if comp < 0 { PutLeft(parent, elm, s); } else { PutRight(parent, elm, s); }
      } else {
        root := elm;
      }
    }

    static lemma SetBefore(m: Memory, c: Ctx, e: Node, f: Fields)
      requires c.Top? || (c.n in m && c.n != e)
      ensures PutChild(m[e := f], c, e) == PutChild(m, c, e)[e := f]
    {
    }

    lemma OneNode(c: Ctx, elm: Node)
      ensures CtxNodes(c) + Nodes(Bin(Leaf, elm, true, Leaf)) == CtxNodes(c) + Nodes(Leaf) + {elm}
    {
    }

    /** RB_SET */
    method SetFields(elm: Node, parent: Node?, ghost s: set<Node>)
      requires elm !in s
      modifies elm
      ensures FieldsOf(s + {elm}) == old(FieldsOf(s))[elm := Fields(null, null, parent, true)]
    {
      elm.parent := parent;
      elm.left, elm.right := null, null;
      elm.red := true;
    }

    /** The search loop of RB_INSERT: stops at the node with the key or at the empty place for it. */
    method Search(key: int) returns (tmp: Node?, parent: Node?, comp: int, ghost c: Ctx, ghost t: Shape)
      requires Valid()
      ensures Valid() && Rep(Nodes(shape), c, t) && Plug(c, t) == shape && Whole(c, t) == Contents() && Between(c, key)
      ensures tmp == Ptr(t) && parent == Above(c)
      ensures tmp != null ==> tmp in Contents() && tmp.key == key
      ensures (c.InLeft? && tmp == null ==> comp < 0) && (c.InRight? && tmp == null ==> comp > 0)
    {
      hide Linked, Whole, Sorted, Between, Before, After, InOrder, RedBlack, Plug;
      ghost var s := Nodes(shape);
      tmp, parent, comp := root, null, 0;
      c, t := Top, shape;
      FromTop(shape, key);
      Here(s, c, t);
      while tmp != null
        invariant Valid() && Rep(s, c, t) && Whole(c, t) == Contents() && Between(c, key) && tmp == Ptr(t)
          && Plug(c, t) == shape
        invariant (tmp != null ==> tmp in s) && parent == Above(c)
        invariant (c.InLeft? ==> comp < 0) && (c.InRight? ==> comp > 0)
        decreases t
      {
        Here(s, c, t);
        Descend(c, t, key);
        PlugDown(c, t);
        comp := key - tmp.key;
        if comp < 0 {
          parent := tmp;
          Left(s, c, t);
          tmp, c, t := tmp.left, InLeft(c, t.n, t.red, t.r), t.l;
        } else if comp > 0 {
          parent := tmp;
          Right(s, c, t);
          tmp, c, t := tmp.right, InRight(t.l, t.n, t.red, c), t.r;
        } else {
          InWhole(c, t);
          return;
        }
        Here(s, c, t);
      }
    }

    /** The second half of RB_INSERT, from RB_SET on. */
    method Add(elm: Node, parent: Node?, comp: int, ghost s: set<Node>, ghost c: Ctx)
      returns (ghost f: Shape)
      requires Rep(s, c, Leaf) && RedBlack(Plug(c, Leaf)) && elm !in s && parent == Above(c)
      requires (c.InLeft? ==> comp < 0) && (c.InRight? ==> comp > 0)
      modifies this`root, s, elm
      ensures Rep(Nodes(f), Top, f) && RedBlack(f) && InOrder(f) == Before(c) + [elm] + After(c)
        && Nodes(f) == s + {elm}
    {
      ghost var h := OpenBalanced(c, Leaf);
      Link(elm, parent, comp, s, c);
      f := InsertColor(elm, s + {elm}, c, Bin(Leaf, elm, true, Leaf), h);
      assert CtxNodes(Top) + Nodes(f) == Nodes(f);
      assert InOrder(Bin(Leaf, elm, true, Leaf)) == [elm];
    }

    /** RB_INSERT: returns the node that already has the key, the argument itself if that is
        linked already, and changes nothing, or puts the new node at its place in the order
        and returns null. */
    method Insert(elm: Node) returns (existing: Node?)
      requires Valid()
      modifies this, Nodes(shape), elm
      ensures Valid()
      ensures existing != null ==> existing in Contents() && existing.key == elm.key && Contents() == old(Contents())
      ensures existing != null ==> Nodes(shape) == old(Nodes(shape))
      ensures existing == null ==>
        Inserted(old(Contents()), elm, Contents()) && Nodes(shape) == old(Nodes(shape)) + {elm}
      ensures (existing == null ==> elm !in old(Nodes(shape))) && (elm in old(Nodes(shape)) ==> existing == elm)
    {
      hide Linked, Whole, InOrder, Before, After, RedBlack, Sorted, Inserted, Between;
      var tmp, parent, comp;
      ghost var c, t;
      tmp, parent, comp, c, t := Search(elm.key);
      IsMember(elm);
      if tmp != null {
        OneForKey(Contents(), tmp, elm);
        return tmp;
      }
      assert t == Leaf;
      PlaceFound(c, elm);
      ghost var f := Add(elm, parent, comp, Nodes(shape), c);
      assert CtxNodes(Top) + Nodes(f) == Nodes(f);
      shape := f;
      return null;
    }

    // ----- RB_REMOVE -----

    /** Makes `child` hang where `elm` hung. */
    method Unlink(elm: Node, child: Node?, parent: Node?, ghost s: set<Node>, ghost c: Ctx, ghost t: Shape,
            ghost ch: Shape)
      requires Rep(s, c, t) && t.Bin? && t.n == elm && ((t.l.Leaf? && ch == t.r) || (t.r.Leaf? && ch == t.l))
      requires child == Ptr(ch) && parent == Above(c)
      modifies this`root, s
      ensures Rep(s - {elm}, c, ch) && elm.parent == parent
    {
      ghost var m := FieldsOf(s);
      Looking(s, c, t);
      Gone(s, c, t, ch);
      UnlinkLinked(m, root, c, t, ch);
      hide Linked, Rehang, Reparent, Nodes, CtxNodes;
      Bypass(elm, child, parent, s);
      Fewer(s, elm);
    }

    /** Gives the child its new parent and the parent its new child. */
    method Bypass(elm: Node, child: Node?, parent: Node?, ghost s: set<Node>)
      requires elm in s && (child != null ==> child in s && child != elm)
        && (parent != null ==> parent in s && parent != elm)
      modifies this`root, s
      ensures FieldsOf(s) == Rehang(Reparent(old(FieldsOf(s)), child, parent), parent, elm, child)
      ensures root == NewRoot(old(root), parent, child) && elm.parent == old(elm.parent)
    {
      if child != null { PutParent(child, parent, s); }
      Hang(parent, elm, child, s);
      assert parent == null || FieldsOf(s)[elm] == old(FieldsOf(s))[elm];
    }

    static lemma Fewer(s: set<Node>, elm: Node)
      ensures FieldsOf(s - {elm}) == FieldsOf(s) - {elm}
    {
    }

    lemma Gone(s: set<Node>, c: Ctx, t: Shape, ch: Shape)
      requires Rep(s, c, t) && t.Bin? && ((t.l.Leaf? && ch == t.r) || (t.r.Leaf? && ch == t.l))
      ensures CtxNodes(c) + Nodes(ch) == s - {t.n} && (ch.Bin? ==> ch.n in s && ch.n != t.n) && Above(c) != t.n
    {
      RootIn(ch);
      AboveIn(c);
    }

    /** `elm` takes over everything from `old1`: its fields, the parent's link, the children's links. */
    method TakeOver(old1: Node, elm: Node, ghost s: set<Node>)
      requires old1 in s && elm !in s && old1.left != null && old1.left in s && old1.left != old1
      requires old1.right != null ==> old1.right in s && old1.right != old1
      requires old1.parent != null ==> old1.parent in s && old1.parent != old1
      modifies this`root, s, elm
      ensures root == NewRoot(old(root), old(old1.parent), elm)
      ensures var m := old(FieldsOf(s)); var f := m[old1];
        FieldsOf(s + {elm}) == Reparent(Reparent(Rehang(m[elm := f], f.parent, old1, elm), f.left, elm), f.right, elm)
    {
      ghost var m, s1 := FieldsOf(s), s + {elm};
      var l, r, p := old1.left, old1.right, old1.parent;
      CopyFields(old1, elm, s);
      Hang(p, old1, elm, s1);
      PutParent(l, elm, s1);
      if r != null { PutParent(r, elm, s1); }
    }

    method CopyFields(from: Node, to: Node, ghost s: set<Node>)
      requires from in s && to !in s
      modifies to
      ensures FieldsOf(s + {to}) == old(FieldsOf(s)[to := FieldsOf(s)[from]])
    {
      to.left, to.right, to.parent, to.red := from.left, from.right, from.parent, from.red;
    }

    method Substitute(old1: Node, elm: Node, ghost s: set<Node>, ghost c: Ctx, ghost t: Shape)
      requires Rep(s, c, t) && t.Bin? && t.n == old1 && t.l.Bin? && elm !in s
      modifies this`root, s, elm
      ensures Rep(s - {old1} + {elm}, c, Bin(t.l, elm, t.red, t.r))
    {
      ghost var m := FieldsOf(s);
      Children(s, c, t);
      SubstituteLinked(m, root, c, t, elm);
      hide Linked, Rehang, Reparent, Nodes, CtxNodes;
      TakeOver(old1, elm, s);
      assert s - {old1} + {elm} == s + {elm} - {old1};
      Fewer(s + {elm}, old1);
    }

    lemma Children(s: set<Node>, c: Ctx, t: Shape)
      requires Rep(s, c, t) && t.Bin?
      ensures t.n in s && t.n.left == Ptr(t.l) && t.n.right == Ptr(t.r) && t.n.parent == Above(c) && Above(c) != t.n
      ensures (t.l.Bin? ==> t.l.n in s && t.l.n != t.n) && (t.r.Bin? ==> t.r.n in s && t.r.n != t.n)
      ensures Above(c) != null ==> Above(c) in s
      ensures forall y :: y !in s ==> CtxNodes(c) + Nodes(Bin(t.l, y, t.red, t.r)) == s - {t.n} + {y}
    {
      Here(s, c, t);
      RootIn(t.l);
      RootIn(t.r);
      AboveIn(c);
    }

    /** The leftmost node below `elm`, with the path of left turns to it. */
    method Leftmost(elm0: Node, ghost s: set<Node>, ghost out: Ctx, ghost t0: Shape)
      returns (elm: Node, ghost rc: Ctx, ghost t: Shape)
      requires Rep(s, out, t0) && t0.Bin? && t0.n == elm0
      ensures Rep(s, Under(rc, out), t) && t.Bin? && t.n == elm && t.l == Leaf && AllLeft(rc)
      ensures Plug(rc, t) == t0 && Whole(Under(rc, out), t) == Whole(out, t0)
    {
      hide Linked, Whole;
      elm, rc, t := elm0, Top, t0;
      Here(s, Under(rc, out), t);
      var left := elm.left;
      while left != null
        invariant Rep(s, out, t0) && Rep(s, Under(rc, out), t) && t.Bin? && t.n == elm && left == Ptr(t.l)
          && AllLeft(rc)
        invariant Plug(rc, t) == t0 && Whole(Under(rc, out), t) == Whole(out, t0)
        decreases t
      {
        Left(s, Under(rc, out), t);
        elm, rc, t := left, InLeft(rc, t.n, t.red, t.r), t.l;
        Here(s, Under(rc, out), t);
        left := elm.left;
      }
    }

    /** RB_REMOVE for a node with at most one child. */
    method RemoveSingle(elm: Node, child: Node?, ghost s: set<Node>, ghost c: Ctx, ghost t: Shape, ghost ch: Shape)
      returns (ghost f: Shape)
      requires Rep(s, c, t) && RedBlack(Plug(c, t)) && t.Bin? && t.n == elm
        && ((t.l.Leaf? && ch == t.r) || (t.r.Leaf? && ch == t.l))
      requires child == Ptr(ch)
      modifies this`root, s
      ensures Rep(s - {elm}, Top, f) && RedBlack(f)
      ensures InOrder(f) == Before(c) + InOrder(t.l) + (InOrder(t.r) + After(c))
    {
      hide Linked, RedBlack, Whole, NoRedRedCtx, HeightCtx, RootBlackCtx, Before, After, InOrder, Short;
      Looking(s, c, t);
      ghost var h := OpenBalanced(c, t);
      OnlyChildFits(c, t, ch, h);
      SingleOrder(c, t, ch);
      var parent, red := elm.parent, elm.red;
      Unlink(elm, child, parent, s, c, t, ch);
      if !red {
        f := RemoveColor(parent, child, s - {elm}, c, ch, h - 1);
      } else {
        f := Plug(c, ch);
        AtTop(s - {elm}, c, ch);
      }
    }

    lemma SingleOrder(c: Ctx, t: Shape, ch: Shape)
      requires t.Bin? && ((t.l.Leaf? && ch == t.r) || (t.r.Leaf? && ch == t.l))
      ensures Whole(c, ch) == Before(c) + InOrder(t.l) + (InOrder(t.r) + After(c))
    {
      if t.l.Leaf? { assert InOrder(t.l) == []; } else { assert InOrder(t.r) == []; }
    }

    /** With its successor unlinked, node `old1` is replaced by it; the focus stays where the successor was. */
    method Promote(old1: Node, elm: Node, ghost s: set<Node>, ghost c: Ctx, ghost l: Shape, ghost red: bool,
            ghost rc: Ctx, ghost r: Shape)
      requires Rep(s, Under(rc, InRight(l, old1, red, c)), r) && l.Bin? && elm !in s
      modifies this`root, s, elm
      ensures Rep(s - {old1} + {elm}, Under(rc, InRight(l, elm, red, c)), r)
    {
      hide Linked, Whole;
      ghost var t := Bin(l, old1, red, Plug(rc, r));
      ghost var s' := s - {old1} + {elm};
      GoUpTo(FieldsOf(s), root, rc, InRight(l, old1, red, c), r);
      Up(s, InRight(l, old1, red, c), Plug(rc, r));
      Substitute(old1, elm, s, c, t);
      Right(s', c, Bin(l, elm, red, Plug(rc, r)));
      GoDownTo(FieldsOf(s'), root, rc, InRight(l, elm, red, c), r);
    }

    /** RB_REMOVE for a node with two children: its successor is taken out and put in its place. */
    method RemoveDouble(old1: Node, ghost s: set<Node>, ghost c: Ctx, ghost t: Shape) returns (ghost f: Shape)
      requires Rep(s, c, t) && RedBlack(Plug(c, t)) && t.Bin? && t.n == old1 && t.l.Bin? && t.r.Bin?
      modifies this`root, s
      ensures Rep(s - {old1}, Top, f) && RedBlack(f)
      ensures InOrder(f) == Before(c) + InOrder(t.l) + (InOrder(t.r) + After(c))
    {
      hide Linked, RedBlack, Whole, NoRedRedCtx, HeightCtx, RootBlackCtx, Under, Before, After, InOrder, Short, Plug,
        AllLeft, Nodes, CtxNodes;
      ghost var out := InRight(t.l, old1, t.red, c);
      Here(s, c, t);
      Right(s, c, t);
      var elm;
      ghost var rc, ti;
      elm, rc, ti := Leftmost(old1.right, s, out, t.r);
      ghost var k, k', r := Under(rc, out), Under(rc, InRight(t.l, elm, t.red, c)), ti.r;
      ghost var h := SuccessorFits(c, t, rc, ti);
      DoubleOrder(c, t, rc, ti);
      Here(s, k, ti);
      Parents(s, c, t, rc, ti);
      var child, parent, red := elm.right, elm.parent, elm.red;
      Unlink(elm, child, parent, s, k, ti, r);
      if elm.parent == old1 { parent := elm; }
      Promote(old1, elm, s - {elm}, c, t.l, t.red, rc, r);
      assert s - {elm} - {old1} + {elm} == s - {old1};
      if !red {
        f := RemoveColor(parent, child, s - {old1}, k', r, h);
      } else {
        f := Plug(k', r);
        AtTop(s - {old1}, k', r);
      }
    }

    /** The successor differs from the node removed; its place's parent is that node or stays. */
    lemma Parents(s: set<Node>, c: Ctx, t: Shape, rc: Ctx, ti: Shape)
      requires t.Bin? && ti.Bin? && Rep(s, Under(rc, InRight(t.l, t.n, t.red, c)), ti)
      ensures ti.n != t.n && ti.n in s && t.n in s
      ensures var k, k' := Under(rc, InRight(t.l, t.n, t.red, c)), Under(rc, InRight(t.l, ti.n, t.red, c));
        Above(k') == if Above(k) == t.n then ti.n else Above(k)
    {
      OutIn(rc, InRight(t.l, t.n, t.red, c));
      RootIn(ti);
      AboveUnder(rc, t.l, t.n, ti.n, t.red, c);
    }

    lemma DoubleOrder(c: Ctx, t: Shape, rc: Ctx, ti: Shape)
      requires t.Bin? && ti.Bin? && ti.l == Leaf && AllLeft(rc) && Plug(rc, ti) == t.r
      ensures Whole(Under(rc, InRight(t.l, ti.n, t.red, c)), ti.r) == Before(c) + InOrder(t.l)
        + (InOrder(t.r) + After(c))
    {
      PathParts(rc, t.l, ti.n, t.red, c);
      SubtreeOrder(rc, ti);
      hide Under, InOrder, Before, After;
      Regroup(Before(c) + InOrder(t.l), [ti.n], InOrder(ti.r), After(rc), After(c));
    }

    lemma SubtreeOrder(rc: Ctx, ti: Shape)
      requires ti.Bin? && ti.l == Leaf && AllLeft(rc)
      ensures InOrder(Plug(rc, ti)) == [ti.n] + InOrder(ti.r) + After(rc)
    {
      PlugInOrder(rc, ti);
      LeftBefore(rc);
      assert InOrder(ti) == [] + [ti.n] + InOrder(ti.r);
    }

    lemma Regroup(a: seq<Node>, x: seq<Node>, r: seq<Node>, b: seq<Node>, d: seq<Node>)
      ensures (a + x) + r + (b + d) == a + ((x + r + b) + d)
    {
    }

    /** RB_REMOVE: takes exactly this node out of the order and returns it. */
    method Remove(elm: Node) returns (removed: Node)
      requires Valid() && elm in Contents()
      modifies this, Nodes(shape)
      ensures Valid() && removed == elm && Removed(old(Contents()), elm, Contents())
      ensures Nodes(shape) == old(Nodes(shape)) - {elm}
    {
      ghost var s := Nodes(shape);
      IsMember(elm);
      ghost var c, t := Located(elm);
      hide Linked, Whole, InOrder, Before, After, RedBlack, Sorted, Removed, Plug;
      ghost var f := TakeOut(elm, s, c, t);
      Settled(s - {elm}, f);
      shape := f;
      return elm;
    }

    /** Where a node stands, and what the order is without it. */
    lemma Located(elm: Node) returns (c: Ctx, t: Shape)
      requires Valid() && elm in Nodes(shape)
      ensures Rep(Nodes(shape), c, t) && RedBlack(Plug(c, t)) && t.Bin? && t.n == elm
      ensures var left := Before(c) + InOrder(t.l) + (InOrder(t.r) + After(c));
        Removed(Contents(), elm, left) && Sorted(left)
    {
      c, t := Locate(shape, elm);
      DownTo(c, t);
      WholeParts(c, t);
      hide Linked, InOrder, Before, After, RedBlack, Plug;
      RemovedAt(Before(c) + InOrder(t.l), elm, InOrder(t.r) + After(c));
    }

    method TakeOut(elm: Node, ghost s: set<Node>, ghost c: Ctx, ghost t: Shape) returns (ghost f: Shape)
      requires Rep(s, c, t) && RedBlack(Plug(c, t)) && t.Bin? && t.n == elm
      modifies this`root, s
      ensures Rep(s - {elm}, Top, f) && RedBlack(f)
        && InOrder(f) == Before(c) + InOrder(t.l) + (InOrder(t.r) + After(c))
    {
      hide Linked, InOrder, Before, After, RedBlack, Plug;
      Here(s, c, t);
      if elm.left == null || elm.right == null {
        var child := if elm.left == null then elm.right else elm.left;
        f := RemoveSingle(elm, child, s, c, t, if t.l.Leaf? then t.r else t.l);
      } else {
        f := RemoveDouble(elm, s, c, t);
      }
    }

    lemma Settled(s: set<Node>, f: Shape)
      requires Rep(s, Top, f)
      ensures Nodes(f) == s
    {
      assert CtxNodes(Top) == {};
    }

    lemma DownTo(c: Ctx, t: Shape)
      requires Valid() && Plug(c, t) == shape
      ensures Rep(Nodes(shape), c, t)
    {
      UnderTop(c);
      GoDownTo(FieldsOf(Nodes(shape)), root, c, Top, t);
    }
  }

  lemma {:induction false} LeftBefore(rc: Ctx)
    requires AllLeft(rc)
    ensures Before(rc) == []
  {
    if !rc.Top? { LeftBefore(rc.up); }
  }

  lemma {:induction false} UnderTop(c: Ctx)
    ensures Under(c, Top) == c
  {
    if !c.Top? { UnderTop(c.up); }
  }

  lemma Parted(a: seq<Node>, b: seq<Node>, x: Node, c: seq<Node>, d: seq<Node>)
    ensures a + (b + [x] + c) + d == a + b + [x] + (c + d)
  {
  }

  lemma WholeParts(c: Ctx, t: Shape)
    requires t.Bin?
    ensures InOrder(Plug(c, t)) == Before(c) + InOrder(t.l) + [t.n] + (InOrder(t.r) + After(c))
  {
    PlugInOrder(c, t);
    Parted(Before(c), InOrder(t.l), t.n, InOrder(t.r), After(c));
    hide Before, After;
  }

  /** `s'` is `s` with `e` added, in key order. */
  ghost predicate Inserted(s: seq<Node>, e: Node, s': seq<Node>) {
    Sorted(s') && exists k :: 0 <= k <= |s| && s' == s[..k] + [e] + s[k..]
  }

  /** The descent for `key`: every node before the hole is smaller, every node after it larger. */
  ghost predicate Between(c: Ctx, key: int) {
    && (forall n :: n in Before(c) ==> n.key < key)
    && (forall n :: n in After(c) ==> key < n.key)
  }

  lemma FromTop(t: Shape, key: int)
    ensures Plug(Top, t) == t && Whole(Top, t) == InOrder(t) && Between(Top, key)
  {
    assert Whole(Top, t) == [] + InOrder(t) + [];
  }

  lemma PlugDown(c: Ctx, t: Shape)
    requires t.Bin?
    ensures Plug(InLeft(c, t.n, t.red, t.r), t.l) == Plug(c, t) == Plug(InRight(t.l, t.n, t.red, c), t.r)
  {
  }

  lemma InWhole(c: Ctx, t: Shape)
    requires t.Bin?
    ensures t.n in Whole(c, t)
  {
    assert Whole(c, t)[|Before(c)| + |InOrder(t.l)|] == t.n;
  }

  /** A search that ends at an empty place has met no node with the key, and there is none. */
  lemma EmptyPlace(c: Ctx, key: int)
    requires Between(c, key)
    ensures forall n :: n in Whole(c, Leaf) ==> n.key != key
  {
    assert InOrder(Leaf) == [];
  }

  lemma OneForKey(s: seq<Node>, a: Node, b: Node)
    requires Sorted(s) && a in s && a.key == b.key
    ensures b in s ==> a == b
  {
    var i :| 0 <= i < |s| && s[i] == a;
    if b in s {
      var j :| 0 <= j < |s| && s[j] == b;
      assert !(i < j) && !(j < i);
    }
  }

  /** The empty place found by a search is the new node's place. */
  lemma PlaceFound(c: Ctx, e: Node)
    requires Sorted(Whole(c, Leaf)) && Between(c, e.key)
    ensures e !in Whole(c, Leaf)
    ensures Whole(c, Leaf) == Before(c) + After(c) && Inserted(Whole(c, Leaf), e, Before(c) + [e] + After(c))
    ensures Sorted(Before(c) + [e] + After(c))
  {
    assert InOrder(Leaf) == [];
    assert Whole(c, Leaf) == Before(c) + [] + After(c) == Before(c) + After(c);
    hide Before, After, InOrder, Whole;
    InsertedBetween(Before(c), After(c), e);
  }

  lemma InsertedBetween(a: seq<Node>, b: seq<Node>, e: Node)
    requires Sorted(a + b) && (forall n :: n in a ==> n.key < e.key) && (forall n :: n in b ==> e.key < n.key)
    ensures Inserted(a + b, e, a + [e] + b)
  {
    var s, k, s' := a + b, |a|, a + [e] + b;
    assert s[..k] == a && s[k..] == b;
    forall i, j | 0 <= i < j < |s'| ensures s'[i].key < s'[j].key {
      if j == k {
        assert s'[i] == a[i];
      } else if i == k {
        assert s'[j] == b[j - k - 1];
      } else {
        var i0, j0 := if i < k then i else i - 1, if j < k then j else j - 1;
        assert s'[i] == s[i0] && s'[j] == s[j0];
      }
    }
  }
}
