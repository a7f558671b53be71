/** The context struct of a generator: which field holds which declaration. */
module GeneratorLayout {
  import opened Wrappers
  import opened GeneratorSyntax

  /** A chain of field indices, from the context struct inwards. */
  type Path = seq<nat>

  /** An entry of a context: its field index and either the declaration stored
      there (the three header fields have none) or the entries of a nested struct. */
  datatype Ctx = Field(id: nat, node: Option<NodeId>) | Sub(id: nat, idxmap: seq<Ctx>)

  /** A declaration node with the field path its value lives at. */
  datatype Slot = Slot(node: NodeId, path: Path)

  const HEADER_TYPES: seq<Type> := [IntType, MutexPtr, BoolType]
  const HEADER_CTX: seq<Ctx> := [Field(0, None), Field(1, None), Field(2, None)]

  // ----- what buildCtx and setVals compute -----

  function AddChild(s: Stmt, tps: seq<Type>, cs: seq<Ctx>): (r: (seq<Type>, seq<Ctx>))
    ensures tps <= r.0 && cs <= r.1 && (|tps| == |cs| ==> |r.0| == |r.1|)
    decreases s, 0
  {
    match s
    case If(_, thn) => AddSub(thn, tps, cs)
    case IfElse(_, thn, _) => AddSub(thn, tps, cs)
    case For(_, _, body) => AddSub(body, tps, cs)
    case Define(id, _, tp) => (tps + [tp], cs + [Field(|cs|, Some(id))])
    case DefAssign(id, _, tp, _) => (tps + [tp], cs + [Field(|cs|, Some(id))])
    case Await(id, gen) => (tps + [gen], cs + [Field(|cs|, Some(id))])
    case DefAwait(id, _, tp, aid, gen) =>
      (tps + [tp] + [gen], cs + [Field(|cs|, Some(id))] + [Field(|cs| + 1, Some(aid))])
    case Assign(_, _) => (tps, cs)
    case Yield(_) => (tps, cs)
  }

  function AddSub(sl: seq<Stmt>, tps: seq<Type>, cs: seq<Ctx>): (r: (seq<Type>, seq<Ctx>))
    ensures tps <= r.0 && cs <= r.1 && (|tps| == |cs| ==> |r.0| == |r.1|)
    decreases sl, 1
  {
    var sub := AddChildren(sl, HEADER_TYPES, HEADER_CTX);
    (tps + [StructType(sub.0)], cs + [Sub(|cs|, sub.1)])
  }

  function AddChildren(sl: seq<Stmt>, tps: seq<Type>, cs: seq<Ctx>): (r: (seq<Type>, seq<Ctx>))
    ensures tps <= r.0 && cs <= r.1 && (|tps| == |cs| ==> |r.0| == |r.1|)
    decreases sl, 0
  {
    if sl == [] then (tps, cs)
    else var r := AddChild(sl[0], tps, cs); AddChildren(sl[1..], r.0, r.1)
  }

  /** The fields and entries of the context struct of a statement list. */
  function BuildCtx(sl: seq<Stmt>): (r: (seq<Type>, seq<Ctx>)) {
    AddChildren(sl, HEADER_TYPES, HEADER_CTX)
  }

  /** The field path that setVals installs on each declaration node. */
  function Slots(cs: seq<Ctx>, base: Path): seq<Slot> {
    if cs == [] then [] else SlotsOf(cs[0], base) + Slots(cs[1..], base)
  }

  function SlotsOf(c: Ctx, base: Path): seq<Slot> {
    match c
    case Field(id, None) => []
    case Field(id, Some(node)) => [Slot(node, base + [id])]
    case Sub(id, cs) => Slots(cs, base + [id])
  }

  function Table(slots: seq<Slot>): map<NodeId, Path> {
    if slots == [] then map[]
    else Table(slots[..|slots|-1])[slots[|slots|-1].node := slots[|slots|-1].path]
  }

  // ----- the frame of a whole generator -----

  function ParamSlots(ps: seq<Param>, first: nat): seq<Slot> {
    seq(|ps|, k requires 0 <= k < |ps| => Slot(ps[k].id, [first + k]))
  }

  function ParamTypes(ps: seq<Param>): seq<Type> {
    seq(|ps|, k requires 0 <= k < |ps| => ps[k].tp)
  }

  /** Where everything of one generator lives. */
  datatype Frame = Frame(fields: seq<Type>, slots: seq<Slot>, resume: nat)
  {
    function Result(): nat { resume + 1 }
    function Vals(): map<NodeId, Path> { Table(slots) }
  }

  /** Body declarations first, then the parameters, the resume address and the result. */
  function FrameOf(p: Program): Frame {
    var (tps, cs) := BuildCtx(p.body);
    var all := tps + ParamTypes(p.params);
    Frame(all + [Named("blockaddress")] + [p.result], Slots(cs, []) + ParamSlots(p.params, |cs|), |all|)
  }

  // ----- independent description of the declarations that need a slot -----

  datatype Decl = Decl(node: NodeId, tp: Type)

  /** The declarations in source order; else branches are passed over. */
  function Decls(sl: seq<Stmt>): seq<Decl>
    decreases sl, 0
  {
    if sl == [] then [] else DeclsOf(sl[0]) + Decls(sl[1..])
  }

  function DeclsOf(s: Stmt): seq<Decl>
    decreases s, 0
  {
    match s
    case Define(id, _, tp) => [Decl(id, tp)]
    case DefAssign(id, _, tp, _) => [Decl(id, tp)]
    case If(_, thn) => Decls(thn)
    case IfElse(_, thn, _) => Decls(thn)
    case For(_, _, body) => Decls(body)
    case Await(id, gen) => [Decl(id, gen)]
    case DefAwait(id, _, tp, aid, gen) => [Decl(id, tp), Decl(aid, gen)]
    case Assign(_, _) => []
    case Yield(_) => []
  }

  function ParamDecls(ps: seq<Param>): seq<Decl> {
    seq(|ps|, k requires 0 <= k < |ps| => Decl(ps[k].id, ps[k].tp))
  }

  function TypeAt(tp: Type, path: Path): Option<Type>
    decreases path
  {
    if path == [] then Some(tp)
    else if tp.StructType? && path[0] < |tp.fields| then TypeAt(tp.fields[path[0]], path[1..])
    else None
  }

  // ----- the two share no storage when neither path leads to the other -----

  predicate Overlap(p: Path, q: Path) { p <= q || q <= p }

  ghost predicate NoSharing(slots: seq<Slot>) {
    forall i, j :: 0 <= i < j < |slots| ==> !Overlap(slots[i].path, slots[j].path)
  }

  /** The entries of a context number its fields in order, header first, inside and out. */
  ghost predicate Numbered(cs: seq<Ctx>, from: nat)
  {
    forall k :: 0 <= k < |cs| ==> cs[k].id == from + k && (cs[k].Sub? ==> WellBuilt(cs[k].idxmap))
  }

  ghost predicate WellBuilt(cs: seq<Ctx>)
  {
    |cs| >= 3 && cs[..3] == HEADER_CTX && Numbered(cs, 0)
  }

  lemma {:induction false} AddChildrenNumbered(sl: seq<Stmt>, tps: seq<Type>, cs: seq<Ctx>)
    requires WellBuilt(cs)
    ensures WellBuilt(AddChildren(sl, tps, cs).1)
    decreases sl, 1
  {
    if sl != [] {
      AddChildNumbered(sl[0], tps, cs);
      var r := AddChild(sl[0], tps, cs);
      AddChildrenNumbered(sl[1..], r.0, r.1);
    }
  }

  lemma {:induction false} AddChildNumbered(s: Stmt, tps: seq<Type>, cs: seq<Ctx>)
    requires WellBuilt(cs)
    ensures WellBuilt(AddChild(s, tps, cs).1)
    decreases s, 1
  {
    match s
    case If(_, thn) => AddChildrenNumbered(thn, HEADER_TYPES, HEADER_CTX);
    case IfElse(_, thn, _) => AddChildrenNumbered(thn, HEADER_TYPES, HEADER_CTX);
    case For(_, _, body) => AddChildrenNumbered(body, HEADER_TYPES, HEADER_CTX);
    case _ =>
  }

  // ----- no two slots overlap, and none touches a header field -----

  /** Every slot path extends `base` by a field number of the list, header excluded. */
  ghost predicate Below(slots: seq<Slot>, base: Path, lo: nat, hi: nat) {
    forall k :: 0 <= k < |slots| ==>
      var p := slots[k].path;
      |p| > |base| && base <= p && lo <= p[|base|] < hi && (forall d :: |base| <= d < |p| ==> p[d] >= 3)
  }

  lemma {:induction false} SlotsDisjoint(cs: seq<Ctx>, base: Path, from: nat)
    requires Numbered(cs, from)
    requires from >= 3 || (from == 0 && |cs| >= 3 && cs[..3] == HEADER_CTX)
    ensures NoSharing(Slots(cs, base))
    ensures Below(Slots(cs, base), base, from, from + |cs|)
    decreases cs
  {
    if cs != [] {
      var here, rest := SlotsOf(cs[0], base), Slots(cs[1..], base);
      if from == 0 {
        HeaderHasNoSlots(cs, base);
        SlotsDisjoint(cs[3..], base, 3);
      } else {
        SlotsDisjoint(cs[1..], base, from + 1);
        OneEntry(cs[0], base, from);
      }
    }
  }

  lemma HeaderHasNoSlots(cs: seq<Ctx>, base: Path)
    requires |cs| >= 3 && cs[..3] == HEADER_CTX
    ensures Slots(cs, base) == Slots(cs[3..], base)
  {
    assert cs[0] == HEADER_CTX[0] && cs[1] == HEADER_CTX[1] && cs[2] == HEADER_CTX[2];
    assert cs[1..][1..] == cs[2..] && cs[2..][1..] == cs[3..];
    assert Slots(cs, base) == SlotsOf(cs[0], base) + Slots(cs[1..], base);
    assert Slots(cs[1..], base) == SlotsOf(cs[1], base) + Slots(cs[2..], base);
  }

  lemma {:induction false} OneEntry(c: Ctx, base: Path, from: nat)
    requires from >= 3 && c.id == from && (c.Sub? ==> WellBuilt(c.idxmap))
    ensures NoSharing(SlotsOf(c, base)) && Below(SlotsOf(c, base), base, from, from + 1)
    decreases c
  {
    match c
    case Field(_, _) =>
    case Sub(id, cs) =>
      SlotsDisjoint(cs, base + [id], 0);
      var inner := Slots(cs, base + [id]);
      forall k | 0 <= k < |inner|
        ensures var p := inner[k].path;
          |p| > |base| && base <= p && p[|base|] == from && (forall d :: |base| <= d < |p| ==> p[d] >= 3)
      {
        var p := inner[k].path;
        assert (base + [id])[|base|] == p[|base|];
      }
  }

  // ----- every declaration has a slot of its declared type -----

  ghost predicate Typed(slots: seq<Slot>, decls: seq<Decl>, root: Type, base: Path) {
    && |slots| == |decls|
    && forall k :: 0 <= k < |slots| ==>
      && slots[k].node == decls[k].node && base <= slots[k].path
      && TypeAt(root, slots[k].path[|base|..]) == Some(decls[k].tp)
  }

  lemma {:induction false} SlotsConcat(a: seq<Ctx>, b: seq<Ctx>, base: Path)
    ensures Slots(a + b, base) == Slots(a, base) + Slots(b, base)
  {
    hide SlotsOf;
    if a == [] {
      assert a + b == b;
    } else {
      SlotsConcat(a[1..], b, base);
      assert (a + b)[1..] == a[1..] + b && (a + b)[0] == a[0];
      assert SlotsOf(a[0], base) + (Slots(a[1..], base) + Slots(b, base)) == SlotsOf(a[0], base) + Slots(a[1..], base)
        + Slots(b, base);
    }
  }

  lemma TypedConcat(a: seq<Slot>, da: seq<Decl>, b: seq<Slot>, db: seq<Decl>, root: Type, base: Path)
    requires Typed(a, da, root, base) && Typed(b, db, root, base)
    ensures Typed(a + b, da + db, root, base)
  {
    hide TypeAt;
  }

  lemma {:induction false} AddChildrenTyped(sl: seq<Stmt>, tps: seq<Type>, cs: seq<Ctx>, base: Path, fields: seq<Type>)
    requires |tps| == |cs| && AddChildren(sl, tps, cs).0 <= fields
    ensures cs <= AddChildren(sl, tps, cs).1
    ensures Typed(Slots(AddChildren(sl, tps, cs).1[|cs|..], base), Decls(sl), StructType(fields), base)
    decreases sl, 1
  {
    if sl != [] {
      var r, all := AddChild(sl[0], tps, cs), AddChildren(sl, tps, cs).1;
      AddChildTyped(sl[0], tps, cs, base, fields);
      AddChildrenTyped(sl[1..], r.0, r.1, base, fields);
      hide AddChild, Slots, DeclsOf, TypeAt, Typed;
      assert all[|cs|..] == r.1[|cs|..] + all[|r.1|..];
      SlotsConcat(r.1[|cs|..], all[|r.1|..], base);
      TypedConcat(Slots(r.1[|cs|..], base), DeclsOf(sl[0]), Slots(all[|r.1|..], base), Decls(sl[1..]),
        StructType(fields), base);
    }
  }

  lemma {:induction false} AddChildTyped(s: Stmt, tps: seq<Type>, cs: seq<Ctx>, base: Path, fields: seq<Type>)
    requires |tps| == |cs| && AddChild(s, tps, cs).0 <= fields
    ensures Typed(Slots(AddChild(s, tps, cs).1[|cs|..], base), DeclsOf(s), StructType(fields), base)
    decreases s, 1
  {
    match s
    case If(_, thn) => AddSubTyped(thn, tps, cs, base, fields);
    case IfElse(_, thn, _) => AddSubTyped(thn, tps, cs, base, fields);
    case For(_, _, body) => AddSubTyped(body, tps, cs, base, fields);
    case DefAwait(id, _, tp, aid, gen) =>
      var added := AddChild(s, tps, cs).1[|cs|..];
      assert added == [Field(|cs|, Some(id)), Field(|cs| + 1, Some(aid))];
      assert added[1..] == [Field(|cs| + 1, Some(aid))];
      assert added[1..][1..] == [];
      assert Slots(added[1..], base) == [Slot(aid, base + [|cs| + 1])];
      assert Slots(added, base) == [Slot(id, base + [|cs|]), Slot(aid, base + [|cs| + 1])];
      assert (base + [|cs|])[|base|..] == [|cs|] && (base + [|cs| + 1])[|base|..] == [|cs| + 1];
    case Assign(_, _) =>
    case Yield(_) =>
    case _ =>
      var id, tp := s.id, AddChild(s, tps, cs).0[|cs|];
      var added := AddChild(s, tps, cs).1[|cs|..];
      assert added == [Field(|cs|, Some(id))] && added[1..] == [];
      assert Slots(added, base) == [Slot(id, base + [|cs|])];
      assert (base + [|cs|])[|base|..] == [|cs|];
  }

  lemma {:induction false} AddSubTyped(sl: seq<Stmt>, tps: seq<Type>, cs: seq<Ctx>, base: Path, fields: seq<Type>)
    requires |tps| == |cs| && AddSub(sl, tps, cs).0 <= fields
    ensures Typed(Slots(AddSub(sl, tps, cs).1[|cs|..], base), Decls(sl), StructType(fields), base)
    decreases sl, 2
  {
    var sub := AddChildren(sl, HEADER_TYPES, HEADER_CTX);
    var added, inner := AddSub(sl, tps, cs).1[|cs|..], base + [|cs|];
    assert added == [Sub(|cs|, sub.1)] && added[1..] == [];
    AddChildrenTyped(sl, HEADER_TYPES, HEADER_CTX, inner, sub.0);
    AddChildrenNumbered(sl, HEADER_TYPES, HEADER_CTX);
    HeaderHasNoSlots(sub.1, inner);
    assert Slots(added, base) == Slots(sub.1, inner) + [];
    var slots := Slots(added, base);
    forall k | 0 <= k < |slots|
      ensures base <= slots[k].path && TypeAt(StructType(fields), slots[k].path[|base|..]) == Some(Decls(sl)[k].tp)
    {
      var p := slots[k].path;
      assert inner <= p && p[|base|] == inner[|base|];
      assert p[|base|..][1..] == p[|inner|..];
    }
  }

  // ----- the layout theorem -----

  lemma ParamsPlaced(ps: seq<Param>, first: nat, fields: seq<Type>)
    requires first + |ps| <= |fields|
    requires forall k :: 0 <= k < |ps| ==> fields[first + k] == ps[k].tp
    ensures Typed(ParamSlots(ps, first), ParamDecls(ps), StructType(fields), [])
  {
    forall k | 0 <= k < |ps| ensures TypeAt(StructType(fields), [first + k]) == Some(ps[k].tp) {
      assert [first + k][1..] == [];
    }
    forall k | 0 <= k < |ps| ensures ParamSlots(ps, first)[k].path[0..] == [first + k] {}
  }

  /** The fields of a frame: the body's, the parameters', the resume address, the result. */
  lemma FrameParts(p: Program)
    ensures var f, (tps, cs) := FrameOf(p), BuildCtx(p.body); var n := |tps|;
      && n == |cs| >= 3 && tps <= f.fields && HEADER_TYPES <= tps && |f.fields| == n + |p.params| + 2
      && f.resume == n + |p.params| && f.slots == Slots(cs, []) + ParamSlots(p.params, n)
      && (forall k :: 0 <= k < |p.params| ==> f.fields[n + k] == p.params[k].tp)
  {
    hide AddChildren, Slots;
  }

  lemma FrameShape(p: Program)
    ensures FrameOf(p).resume + 2 == |FrameOf(p).fields|
    ensures FrameOf(p).fields[FrameOf(p).resume] == Named("blockaddress")
    ensures FrameOf(p).fields[FrameOf(p).Result()] == p.result
  {
  }

  /** For every program the slots follow the declarations in order, each at its declared type;
      the header comes first, the resume address and the result last. */
  lemma LayoutTyped(p: Program)
    ensures var f := FrameOf(p); Typed(f.slots, Decls(p.body) + ParamDecls(p.params), StructType(f.fields), [])
    ensures var f := FrameOf(p); f.resume + 2 == |f.fields| && |f.fields| >= 5
    ensures FrameOf(p).fields[..3] == [IntType, MutexPtr, BoolType]
    ensures var f := FrameOf(p);
      f.fields[f.resume] == Named("blockaddress") && f.fields[f.Result()] == p.result
  {
    var (tps, cs) := BuildCtx(p.body);
    var f := FrameOf(p);
    FrameParts(p);
    FrameShape(p);
    hide AddChildren, Slots, FrameOf, Decls, ParamSlots, ParamDecls, ParamTypes, TypeAt;
    AddChildrenTyped(p.body, HEADER_TYPES, HEADER_CTX, [], f.fields);
    AddChildrenNumbered(p.body, HEADER_TYPES, HEADER_CTX);
    HeaderHasNoSlots(cs, []);
    ParamsPlaced(p.params, |cs|, f.fields);
  }

  /** For every program no two slots overlap, and none reaches the header, the
      resume address or the result. */
  lemma LayoutDisjoint(p: Program)
    ensures NoSharing(FrameOf(p).slots)
    ensures forall k :: 0 <= k < |FrameOf(p).slots| ==> InBody(FrameOf(p).slots[k].path, FrameOf(p).resume)
  {
    var (tps, cs) := BuildCtx(p.body);
    FrameParts(p);
    hide AddChildren, Slots, FrameOf, InBody, NoSharing;
    AddChildrenNumbered(p.body, HEADER_TYPES, HEADER_CTX);
    HeaderHasNoSlots(cs, []);
    SlotsDisjoint(cs[3..], [], 3);
    Appended(Slots(cs, []), ParamSlots(p.params, |cs|), |cs|);
  }

  lemma Appended(a: seq<Slot>, b: seq<Slot>, n: nat)
    requires NoSharing(a) && Below(a, [], 3, n)
    requires n >= 3 && forall k :: 0 <= k < |b| ==> b[k].path == [n + k]
    ensures NoSharing(a + b)
    ensures forall k :: 0 <= k < |a + b| ==> InBody((a + b)[k].path, n + |b|)
  {
    var s := a + b;
    forall i, j | 0 <= i < j < |s| ensures !Overlap(s[i].path, s[j].path) {
      if j >= |a| { assert s[i].path[0] != s[j].path[0]; }
    }
  }

  /** Between the header and the resume address, and past the header of every nested struct. */
  predicate InBody(p: Path, resume: nat) {
    |p| > 0 && p[0] < resume && forall d :: 0 <= d < |p| ==> p[d] >= 3
  }

  lemma {:induction false} TableEntries(slots: seq<Slot>)
    ensures forall id :: id in Table(slots) ==> exists k :: 0 <= k < |slots| && slots[k] == Slot(id, Table(slots)[id])
    ensures forall k :: 0 <= k < |slots| ==> slots[k].node in Table(slots)
  {
    if slots != [] {
      var init := slots[..|slots|-1];
      TableEntries(init);
      forall id | id in Table(slots)
        ensures exists k :: 0 <= k < |slots| && slots[k] == Slot(id, Table(slots)[id])
      {
        if id == slots[|slots|-1].node {
          assert slots[|slots|-1] == Slot(id, Table(slots)[id]);
        } else {
          var k :| 0 <= k < |init| && init[k] == Slot(id, Table(init)[id]);
          assert slots[k] == Slot(id, Table(slots)[id]);
        }
      }
    }
  }

  ghost predicate Separate(vals: map<NodeId, Path>) {
    forall a, b :: a in vals && b in vals && a != b ==> !Overlap(vals[a], vals[b])
  }

  lemma TableSeparate(slots: seq<Slot>, resume: nat)
    requires NoSharing(slots)
    requires forall k :: 0 <= k < |slots| ==> InBody(slots[k].path, resume)
    ensures Separate(Table(slots))
    ensures forall id :: id in Table(slots) ==> InBody(Table(slots)[id], resume)
  {
    var vals := Table(slots);
    TableEntries(slots);
    forall a, b | a in vals && b in vals && a != b ensures !Overlap(vals[a], vals[b]) {
      var i :| 0 <= i < |slots| && slots[i] == Slot(a, vals[a]);
      var j :| 0 <= j < |slots| && slots[j] == Slot(b, vals[b]);
      assert i != j;
    }
  }

  /** As the emitted code sees it: distinct nodes have separate storage between
      the header and the resume address, and every slotted declaration has some. */
  lemma NodesSeparate(p: Program)
    ensures Separate(FrameOf(p).Vals())
    ensures forall id :: id in FrameOf(p).Vals() ==> InBody(FrameOf(p).Vals()[id], FrameOf(p).resume)
    ensures forall d :: d in Decls(p.body) + ParamDecls(p.params) ==> d.node in FrameOf(p).Vals()
  {
    var f := FrameOf(p);
    LayoutDisjoint(p);
    TableSeparate(f.slots, f.resume);
    AllSlotted(p);
  }

  lemma AllSlotted(p: Program)
    ensures forall d :: d in Decls(p.body) + ParamDecls(p.params) ==> d.node in FrameOf(p).Vals()
  {
    var f, ds := FrameOf(p), Decls(p.body) + ParamDecls(p.params);
    LayoutTyped(p);
    TableEntries(f.slots);
    forall d | d in ds ensures d.node in f.Vals() {
      var k :| 0 <= k < |ds| && ds[k] == d;
      assert f.slots[k].node == d.node;
    }
  }

  // ----- SetDone -----

  type Memory = map<Path, int>

  /** Sets the done flag and clears from the start of field 3 up to the start of the last field but one. */
  function SetDone(f: Frame, mem: Memory): Memory
    requires |f.fields| >= 2
  {
    var set2 := mem[[2] := 1];
    map p | p in set2 :: if |p| > 0 && 3 <= p[0] < |f.fields| - 2 then 0 else set2[p]
  }

  /** Completion clears every local and parameter, and leaves the registered
      continuation, the mutex, the resume address and the returned value alone. */
  lemma SetDoneKeepsResult(p: Program, mem: Memory)
    ensures |FrameOf(p).fields| >= 2 && FrameOf(p).resume + 2 == |FrameOf(p).fields|
    ensures forall id :: id in FrameOf(p).Vals() ==> Read(SetDone(FrameOf(p), mem), FrameOf(p).Vals()[id]) == 0
    ensures Read(SetDone(FrameOf(p), mem), [2]) == 1
    ensures forall q: Path | q != [2] && (|q| == 0 || q[0] < 3 || q[0] >= FrameOf(p).resume) ::
              Read(SetDone(FrameOf(p), mem), q) == Read(mem, q)
  {
    FrameShape(p);
    NodesSeparate(p);
    var f := FrameOf(p);
    hide FrameOf, SetDone;
    SetDoneAt(f, mem, [2]);
    forall id | id in f.Vals() ensures Read(SetDone(f, mem), f.Vals()[id]) == 0 { SetDoneAt(f, mem, f.Vals()[id]); }
    forall q: Path | q != [2] && (|q| == 0 || q[0] < 3 || q[0] >= f.resume)
      ensures Read(SetDone(f, mem), q) == Read(mem, q)
    {
      SetDoneAt(f, mem, q);
    }
  }

  lemma SetDoneAt(f: Frame, mem: Memory, q: Path)
    requires |f.fields| >= 2
    ensures Read(SetDone(f, mem), q) ==
      if |q| > 0 && 3 <= q[0] < |f.fields| - 2 then 0 else if q == [2] then 1 else Read(mem, q)
  {
  }

  // ----- the two passes as the compiler runs them -----

  class ContextBuilder {
    var vals: map<NodeId, Path>

    constructor ()
      ensures vals == map[]
    {
      vals := map[];
    }

    /** Appends the fields of a statement list, child after child. */
    method Build(sl: seq<Stmt>) returns (tps: seq<Type>, idxmap: seq<Ctx>)
      ensures (tps, idxmap) == BuildCtx(sl)
      decreases sl
    {
      tps, idxmap := HEADER_TYPES, HEADER_CTX;
      for k := 0 to |sl|
        invariant AddChildren(sl[k..], tps, idxmap) == BuildCtx(sl)
      {
        var i := |idxmap|;
        ghost var next := AddChild(sl[k], tps, idxmap);
        assert sl[k..][1..] == sl[k + 1..];
        match sl[k] {
        case If(_, thn) =>
          var ntps, ct := Build(thn);
          assert next == AddSub(thn, tps, idxmap);
          tps, idxmap := tps + [StructType(ntps)], idxmap + [Sub(i, ct)];
        case IfElse(_, thn, _) =>
          var ntps, ct := Build(thn);
          assert next == AddSub(thn, tps, idxmap);
          tps, idxmap := tps + [StructType(ntps)], idxmap + [Sub(i, ct)];
        case For(_, _, body) =>
          var ntps, ct := Build(body);
          assert next == AddSub(body, tps, idxmap);
          tps, idxmap := tps + [StructType(ntps)], idxmap + [Sub(i, ct)];
        case Define(id, _, tp) =>
          tps, idxmap := tps + [tp], idxmap + [Field(i, Some(id))];
        case DefAssign(id, _, tp, _) =>
          tps, idxmap := tps + [tp], idxmap + [Field(i, Some(id))];
        case Await(id, gen) =>
          tps, idxmap := tps + [gen], idxmap + [Field(i, Some(id))];
        case DefAwait(id, _, tp, aid, gen) =>
          tps, idxmap := tps + [tp], idxmap + [Field(i, Some(id))];
          tps, idxmap := tps + [gen], idxmap + [Field(i + 1, Some(aid))];
        case Assign(_, _) =>
        case Yield(_) =>
        }
        assert (tps, idxmap) == next;
      }
    }

    /** Installs the field path on every declaration node below `base`. */
    method SetVals(idxmap: seq<Ctx>, base: Path)
      modifies this
      ensures vals == old(vals) + Table(Slots(idxmap, base))
      decreases idxmap, 1
    {
      for k := 0 to |idxmap|
        invariant vals == old(vals) + Table(Slots(idxmap[..k], base))
      {
        SetVal(idxmap[k], base);
        TableSnoc(idxmap, k, base);
        MergeAssociates(old(vals), Table(Slots(idxmap[..k], base)), Table(SlotsOf(idxmap[k], base)));
      }
      assert idxmap[..|idxmap|] == idxmap;
    }

    method SetVal(c: Ctx, base: Path)
      modifies this
      ensures vals == old(vals) + Table(SlotsOf(c, base))
      decreases c, 2
    {
      match c
      case Field(id, node) =>
        if node.Some? {
          vals := vals[node.value := base + [id]];
          OneSlot(Slot(node.value, base + [id]));
        }
      case Sub(id, cs) => SetVals(cs, base + [id]);
    }
  }

  lemma MergeAssociates<K, V>(a: map<K, V>, b: map<K, V>, c: map<K, V>)
    ensures a + b + c == a + (b + c)
  {
  }

  lemma OneSlot(s: Slot)
    ensures Table([s]) == map[s.node := s.path]
  {
    assert [s][..0] == [];
  }

  lemma {:induction false} TableConcat(a: seq<Slot>, b: seq<Slot>)
    ensures Table(a + b) == Table(a) + Table(b)
  {
    if b == [] {
      assert a + b == a;
    } else {
      var init := b[..|b|-1];
      assert (a + b)[..|a + b|-1] == a + init;
      TableConcat(a, init);
    }
  }

  lemma TableSnoc(cs: seq<Ctx>, k: nat, base: Path)
    requires k < |cs|
    ensures Table(Slots(cs[..k + 1], base)) == Table(Slots(cs[..k], base)) + Table(SlotsOf(cs[k], base))
  {
    var here := [cs[k]];
    assert cs[..k + 1] == cs[..k] + here && here[1..] == [];
    SlotsConcat(cs[..k], here, base);
    assert Slots(here, base) == SlotsOf(cs[k], base);
    TableConcat(Slots(cs[..k], base), SlotsOf(cs[k], base));
  }
}
