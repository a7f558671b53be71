/** Emission lays every statement list out in blocks, bodies that it joins to what follows
    them and bodies that it does not. */
module GeneratorCorrect {
  import opened Wrappers
  import opened GeneratorSyntax
  import opened GeneratorLayout
  import opened GeneratorLowering
  import D = GeneratorDirect
  import E = GeneratorEmitted

  // ----- the programs compared -----

  /** Nothing that needs a slot. */
  predicate NoDefs(ss: seq<Stmt>)
    decreases ss
  {
    forall k :: 0 <= k < |ss| ==>
      match ss[k]
      case Assign(_, _) => true
      case Yield(_) => true
      case If(_, thn) => NoDefs(thn)
      case IfElse(_, thn, els) => NoDefs(thn) && NoDefs(els)
      case For(_, _, body) => NoDefs(body)
      case _ => false
  }

  /** Any nesting of all statements but await, with no definitions in else branches. */
  predicate Fragment(ss: seq<Stmt>)
    decreases ss
  {
    forall k :: 0 <= k < |ss| ==>
      match ss[k]
      case If(_, thn) => Fragment(thn)
      case IfElse(_, thn, els) => Fragment(thn) && Fragment(els) && NoDefs(els)
      case For(_, _, body) => Fragment(body)
      case s => s.Define? || s.DefAssign? || s.Assign? || s.Yield?
  }

  /** Every definition anywhere in `ss` has a slot. */
  predicate Slotted(ss: seq<Stmt>, vals: map<NodeId, Path>)
    decreases ss
  {
    forall k :: 0 <= k < |ss| ==>
      match ss[k]
      case Define(id, _, _) => id in vals
      case DefAssign(id, _, _, _) => id in vals
      case If(_, thn) => Slotted(thn, vals)
      case IfElse(_, thn, els) => Slotted(thn, vals) && Slotted(els, vals)
      case For(_, _, body) => Slotted(body, vals)
      case _ => true
  }

  // ----- where a statement list is laid out -----

  predicate Known(env: Env, vals: map<NodeId, Path>) {
    match env
    case Root => true
    case Scope(vars, parent) => (forall x :: x in vars ==> vars[x] in vals) && Known(parent, vals)
  }

  predicate At(bs: seq<Block>, l: Label, i: nat, ins: seq<Instr>) {
    l < |bs| && i + |ins| <= |bs[l].instrs| && bs[l].instrs[i..i + |ins|] == ins
  }

  predicate EndsAt(bs: seq<Block>, l: Label, i: nat, t: Term) {
    l < |bs| && i == |bs[l].instrs| && bs[l].term == t
  }

  /** The block a loop's back edge leads to: the step, then the loop's branch. */
  predicate HeadAt(bs: seq<Block>, l: Label, test: Option<Exp>, step: Option<(string, Exp)>, env: Env, enter: Term,
          g: Site) {
    l < |bs| && bs[l] == Block(StepOf(step, env, g), enter)
  }

  /** How the last block of a body ends: joined to `end`, not at all, or with the branch
      to `back` that an `if` inside leaves behind. */
  function JoinTerm(e: E.Ending, end: Label, back: Label): Term {
    match e
    case Same => Br(end)
    case Unclosed => Open
    case ToParent => Br(back)
  }

  /** Executing from instruction `i` of block `l` performs `ss` and then terminator `t`. */
  ghost predicate CodeAt(bs: seq<Block>, l: Label, i: nat, ss: seq<Stmt>, env: Env, t: Term, g: Site)
    decreases ss
  {
    Known(env, g.vals) &&
    if ss == [] then EndsAt(bs, l, i, t)
    else
      var rest := ss[1..];
      match ss[0]
      case Define(id, x, _) => id in g.vals && CodeAt(bs, l, i, rest, AddVar(env, x, id), t, g)
      case DefAssign(id, x, _, e) =>
        id in g.vals && At(bs, l, i, [Put(g.vals[id], Lower(e, env, g))])
        && CodeAt(bs, l, i + 1, rest, AddVar(env, x, id), t, g)
      case Assign(x, e) =>
        var ins := StoreOf(x, e, env, g);
        At(bs, l, i, ins) && CodeAt(bs, l, i + |ins|, rest, env, t, g)
      case Yield(out) =>
        var ins := ResultOf(out, env, g);
        exists nb: Label ::
          At(bs, l, i, ins + [PutAddress(g.resume, nb)]) && EndsAt(bs, l, i + |ins| + 1, Return(true))
          && CodeAt(bs, nb, 0, rest, env, t, g)
      case If(c, thn) =>
        exists tt: Label, end: Label ::
          EndsAt(bs, l, i, CondBr(Lower(c, env, g), tt, end))
          && CodeAt(bs, tt, 0, thn, Child(env), JoinTerm(E.EndingOf(thn), end, l), g)
            && CodeAt(bs, end, 0, rest, env, t, g)
      case IfElse(c, thn, els) =>
        exists tt: Label, tf: Label, end: Label ::
          EndsAt(bs, l, i, CondBr(Lower(c, env, g), tt, tf))
          && CodeAt(bs, tt, 0, thn, Child(env), JoinTerm(E.EndingOf(thn), end, end), g)
          && CodeAt(bs, tf, 0, els, Child(env), JoinTerm(E.EndingOf(els), end, end), g)
          && CodeAt(bs, end, 0, rest, env, t, g)
      case For(test, step, body) =>
        exists head: Label, start: Label, end: Label ::
          var enter := Enter(test, env, start, end, g);
          EndsAt(bs, l, i, enter) && HeadAt(bs, head, test, step, env, enter, g)
          && CodeAt(bs, start, 0, body, Child(env), Br(head), g) && CodeAt(bs, end, 0, rest, env, t, g)
      case _ => false
  }

  // ----- emission lays the code out -----

  /** Emission appends to the scope's own block and adds blocks; it leaves all others alone. */
  ghost predicate Grown(st: State, r: State) {
    && st.Valid() && r.Valid() && |st.blocks| <= |r.blocks|
    && (forall l :: 0 <= l < |st.blocks| && l != st.block ==> r.blocks[l] == st.blocks[l])
    && st.blocks[st.block].instrs <= r.blocks[st.block].instrs
    && (r.block == st.block || r.block >= |st.blocks|)
    && (r.block == st.block ==> r.blocks[st.block].term == st.blocks[st.block].term)
  }

  lemma {:induction false} StmtGrows(st: State, parent: Option<Label>, s: Stmt, g: Site)
    requires st.Valid()
    ensures Grown(st, EmitStmt(st, parent, s, g))
    decreases s, 1
  {
    match s
    case If(c, thn) => IfGrows(st, parent, c, thn, g);
    case IfElse(c, thn, els) => IfElseGrows(st, parent, c, thn, els, g);
    case For(test, step, body) => ForGrows(st, parent, test, step, body, g);
    case _ =>
  }

  lemma {:induction false} IfGrows(st: State, parent: Option<Label>, c: Exp, thn: seq<Stmt>, g: Site)
    requires st.Valid()
    ensures Grown(st, EmitStmt(st, parent, If(c, thn), g))
    decreases thn, 2
  {
    StmtsGrow(State(st.blocks + [FRESH], |st.blocks|, Child(st.env)), Some(st.block), thn, g);
  }

  /** The state in which an if/else starts its first branch, and then its second. */
  function ThenState(st: State, c: Exp, g: Site): (r: State)
    requires st.Valid()
    ensures r.Valid()
  {
    var n := |st.blocks|;
    State(Terminate(st.blocks + [FRESH, FRESH, FRESH], st.block, CondBr(Lower(c, st.env, g), n, n + 1)), n,
      Child(st.env))
  }

  function ElseState(st: State, c: Exp, thn: seq<Stmt>, g: Site): (r: State)
    requires st.Valid()
    ensures r.Valid()
  {
    var n := |st.blocks|;
    State(EmitStmts(ThenState(st, c, g), Some(n + 2), thn, g).blocks, n + 1, Child(st.env))
  }

  lemma {:induction false} IfElseGrows(st: State, parent: Option<Label>, c: Exp, thn: seq<Stmt>, els: seq<Stmt>,
          g: Site)
    requires st.Valid()
    ensures Grown(st, EmitStmt(st, parent, IfElse(c, thn, els), g))
    decreases IfElse(c, thn, els), 0
  {
    var n := |st.blocks|;
    StmtsGrow(ThenState(st, c, g), Some(n + 2), thn, g);
    var e := ElseState(st, c, thn, g);
    StmtsGrow(e, Some(n + 2), els, g);
    var r2, r := EmitStmts(e, Some(n + 2), els, g), EmitStmt(st, parent, IfElse(c, thn, els), g);
    forall l | 0 <= l < n ensures r.blocks[l] == ThenState(st, c, g).blocks[l] {
      assert r.blocks[l] == r2.blocks[l] == e.blocks[l];
    }
  }

  function BodyState(st: State, test: Option<Exp>, g: Site): (r: State)
    requires st.Valid()
    ensures r.Valid()
  {
    var n := |st.blocks|;
    State(Terminate(st.blocks + [FRESH, FRESH, FRESH], st.block, Enter(test, st.env, n + 1, n + 2, g)), n + 1,
      Child(st.env))
  }

  lemma {:induction false} ForGrows(st: State, parent: Option<Label>, test: Option<Exp>, step: Option<(string, Exp)>,
          body: seq<Stmt>, g: Site)
    requires st.Valid()
    ensures Grown(st, EmitStmt(st, parent, For(test, step, body), g))
    decreases body, 2
  {
    StmtsGrow(BodyState(st, test, g), Some(|st.blocks| + 2), body, g);
  }

  lemma {:induction false} StmtsGrow(st: State, parent: Option<Label>, ss: seq<Stmt>, g: Site)
    requires st.Valid()
    ensures Grown(st, EmitStmts(st, parent, ss, g))
    decreases ss, 1
  {
    if ss != [] {
      var st1 := EmitStmt(st, parent, ss[0], g);
      StmtGrows(st, parent, ss[0], g);
      StmtsGrow(st1, parent, ss[1..], g);
      GrownTwice(st, st1, EmitStmts(st1, parent, ss[1..], g));
    }
  }

  lemma GrownTwice(st: State, st1: State, r: State)
    requires Grown(st, st1) && Grown(st1, r)
    ensures Grown(st, r)
  {
  }

  /** Where the emission of a list from `st` to `r` ends, and with what terminator. */
  ghost predicate Finishes(st: State, r: State, parent: Option<Label>, e: E.Ending) {
    && st.Valid() && r.Valid() && |st.blocks| <= |r.blocks|
    && (e.Same? ==> r.block == st.block)
    && (!e.Same? ==> r.block >= |st.blocks| && r.blocks[st.block].term != Open)
    && (e.Unclosed? ==> r.blocks[r.block].term == Open)
    && (e.ToParent? && parent.Some? ==> r.blocks[r.block].term == Br(parent.value))
  }

  lemma {:induction false} StmtFinishes(st: State, parent: Option<Label>, s: Stmt, g: Site)
    requires st.Valid()
    ensures Finishes(st, EmitStmt(st, parent, s, g), parent, E.EndingOfStmt(s))
  {
    if s.If? {
      IfFinishes(st, parent, s.cond, s.thn, g);
    } else if s.IfElse? {
      hide EmitStmt, EmitStmts;
      assert s == IfElse(s.cond, s.thn, s.els);
      IfElseSets(st, parent, s.cond, s.thn, s.els, g);
    } else if s.For? {
      ForFinishes(st, parent, s.test, s.step, s.body, g);
    }
  }

  lemma IfFinishes(st: State, parent: Option<Label>, c: Exp, thn: seq<Stmt>, g: Site)
    requires st.Valid()
    ensures Finishes(st, EmitStmt(st, parent, If(c, thn), g), parent, E.ToParent)
  {
    StmtsGrow(State(st.blocks + [FRESH], |st.blocks|, Child(st.env)), Some(st.block), thn, g);
    hide EmitStmts;
  }

  lemma ForFinishes(st: State, parent: Option<Label>, test: Option<Exp>, step: Option<(string, Exp)>, body: seq<Stmt>,
          g: Site)
    requires st.Valid()
    ensures Finishes(st, EmitStmt(st, parent, For(test, step, body), g), parent, E.Unclosed)
  {
    StmtsGrow(BodyState(st, test, g), Some(|st.blocks| + 2), body, g);
    hide EmitStmts;
  }

  /** The whole list finishes as its last statement that adds blocks does. */
  lemma {:induction false} StmtsFinish(st: State, parent: Option<Label>, ss: seq<Stmt>, g: Site)
    requires st.Valid()
    ensures Finishes(st, EmitStmts(st, parent, ss, g), parent, E.EndingOf(ss))
    decreases ss
  {
    if ss != [] {
      var st1, rest := EmitStmt(st, parent, ss[0], g), ss[1..];
      StmtGrows(st, parent, ss[0], g);
      StmtsGrow(st1, parent, rest, g);
      StmtFinishes(st, parent, ss[0], g);
      StmtsFinish(st1, parent, rest, g);
      hide EmitStmt;
      FinishesOn(st, st1, EmitStmts(st1, parent, rest, g), parent, E.EndingOfStmt(ss[0]), E.EndingOf(rest));
    }
  }

  lemma FinishesOn(st: State, st1: State, r: State, parent: Option<Label>, e: E.Ending, e1: E.Ending)
    requires Grown(st, st1) && Grown(st1, r) && Finishes(st, st1, parent, e) && Finishes(st1, r, parent, e1)
    ensures Finishes(st, r, parent, if e1 != E.Same then e1 else e)
  {
  }

  /** What an if/else leaves in its own block and in its end block. */
  lemma IfElseSets(st: State, parent: Option<Label>, c: Exp, thn: seq<Stmt>, els: seq<Stmt>, g: Site)
    requires st.Valid()
    ensures var r := EmitStmt(st, parent, IfElse(c, thn, els), g); var n := |st.blocks|;
      && r.block == n + 2 < |r.blocks| && r.blocks[n + 2].instrs == [] && r.env == st.env
      && (parent.Some? ==> r.blocks[n + 2].term == Br(parent.value))
      && r.blocks[st.block] == Block(st.blocks[st.block].instrs, CondBr(Lower(c, st.env, g), n, n + 1))
  {
    var n := |st.blocks|;
    var t, e := ThenState(st, c, g), ElseState(st, c, thn, g);
    StmtsGrow(t, Some(n + 2), thn, g);
    StmtsGrow(e, Some(n + 2), els, g);
    var r2, r := EmitStmts(e, Some(n + 2), els, g), EmitStmt(st, parent, IfElse(c, thn, els), g);
    assert r2.blocks[st.block] == e.blocks[st.block] == t.blocks[st.block];
    assert r2.blocks[n + 2] == e.blocks[n + 2] == t.blocks[n + 2] == FRESH;
  }

  // ----- emission lays code out -----

  /** The final blocks hold what the emission from `st` to `r` wrote. */
  ghost predicate Holds(bs: seq<Block>, st: State, r: State) {
    && st.Valid() && r.Valid() && |r.blocks| <= |bs| && |st.blocks| <= |r.blocks|
    && (forall l :: 0 <= l < |r.blocks| && (l == st.block || l >= |st.blocks|) && l != r.block ==> bs[l] == r.blocks[l])
    && r.blocks[r.block].instrs <= bs[r.block].instrs
  }

  lemma HoldsHead(bs: seq<Block>, st: State, st1: State, r: State)
    requires Grown(st, st1) && Grown(st1, r) && Holds(bs, st, r)
    ensures Holds(bs, st, st1) && Holds(bs, st1, r)
  {
    forall l | 0 <= l < |st1.blocks| && (l == st.block || l >= |st.blocks|) && l != st1.block
      ensures bs[l] == st1.blocks[l]
    {
      assert bs[l] == r.blocks[l];
    }
  }

  function Here(st: State): nat
    requires st.Valid()
  {
    |st.blocks[st.block].instrs|
  }

  predicate KnownStmts(ss: seq<Stmt>, env: Env, g: Site) { Fragment(ss) && Slotted(ss, g.vals) && Known(env, g.vals) }

  lemma {:induction false} Laid(bs: seq<Block>, st: State, parent: Option<Label>, ss: seq<Stmt>, t: Term, g: Site)
    requires st.Valid() && KnownStmts(ss, st.env, g)
    requires var r := EmitStmts(st, parent, ss, g); Holds(bs, st, r) && EndsAt(bs, r.block, Here(r), t)
    ensures CodeAt(bs, st.block, Here(st), ss, st.env, t, g)
    decreases ss, 1
  {
    if ss != [] {
      var rest, st1, r := ss[1..], EmitStmt(st, parent, ss[0], g), EmitStmts(st, parent, ss, g);
      TailKnown(st, parent, ss, g);
      StmtGrows(st, parent, ss[0], g);
      StmtsGrow(st1, parent, rest, g);
      HoldsHead(bs, st, st1, r);
      Laid(bs, st1, parent, rest, t, g);
      LaidHead(bs, st, parent, ss, t, g);
    }
  }

  /** Everything is in place but the first statement of `ss`. */
  ghost predicate RestLaid(bs: seq<Block>, st: State, parent: Option<Label>, ss: seq<Stmt>, t: Term, g: Site) {
    && st.Valid() && ss != [] && KnownStmts(ss, st.env, g)
    && var st1 := EmitStmt(st, parent, ss[0], g);
       Holds(bs, st, st1) && CodeAt(bs, st1.block, Here(st1), ss[1..], st1.env, t, g)
  }

  lemma {:induction false} LaidHead(bs: seq<Block>, st: State, parent: Option<Label>, ss: seq<Stmt>, t: Term, g: Site)
    requires RestLaid(bs, st, parent, ss, t, g)
    ensures CodeAt(bs, st.block, Here(st), ss, st.env, t, g)
    decreases ss, 0, 2
  {
    if ss[0].If? {
      HeadIf(bs, st, parent, ss, t, g);
    } else if ss[0].IfElse? {
      HeadIfElse(bs, st, parent, ss, t, g);
    } else if ss[0].For? {
      HeadFor(bs, st, parent, ss, t, g);
    } else if ss[0].Yield? {
      HeadYield(bs, st, parent, ss, t, g);
    } else {
      HeadSimple(bs, st, parent, ss, t, g);
    }
  }

  lemma HeadSimple(bs: seq<Block>, st: State, parent: Option<Label>, ss: seq<Stmt>, t: Term, g: Site)
    requires RestLaid(bs, st, parent, ss, t, g)
    requires !ss[0].If? && !ss[0].IfElse? && !ss[0].For? && !ss[0].Yield?
    ensures CodeAt(bs, st.block, Here(st), ss, st.env, t, g)
  {
  }

  lemma HeadYield(bs: seq<Block>, st: State, parent: Option<Label>, ss: seq<Stmt>, t: Term, g: Site)
    requires RestLaid(bs, st, parent, ss, t, g) && ss[0].Yield?
    ensures CodeAt(bs, st.block, Here(st), ss, st.env, t, g)
  {
    LaidYield(bs, st, parent, ss[0].out, g);
  }

  lemma {:induction false} HeadIf(bs: seq<Block>, st: State, parent: Option<Label>, ss: seq<Stmt>, t: Term, g: Site)
    requires RestLaid(bs, st, parent, ss, t, g) && ss[0].If?
    ensures CodeAt(bs, st.block, Here(st), ss, st.env, t, g)
    decreases ss, 0, 1
  {
    hide EmitStmt, EmitStmts, Holds, EndsAt, Known, JoinTerm, E.EndingOf;
    var c, thn := ss[0].cond, ss[0].thn;
    ThenKnown(ss, st.env, g);
    assert ss[0] == If(c, thn);
    LaidIf(bs, st, parent, c, thn, g);
  }

  lemma ThenKnown(ss: seq<Stmt>, env: Env, g: Site)
    requires KnownStmts(ss, env, g) && ss != [] && ss[0].If?
    ensures KnownStmts(ss[0].thn, env, g)
  {
  }

  lemma {:induction false} HeadIfElse(bs: seq<Block>, st: State, parent: Option<Label>, ss: seq<Stmt>, t: Term, g: Site)
    requires RestLaid(bs, st, parent, ss, t, g) && ss[0].IfElse?
    ensures CodeAt(bs, st.block, Here(st), ss, st.env, t, g)
    decreases ss, 0, 1
  {
    hide EmitStmt, EmitStmts, Holds, EndsAt, Known, Fragment, JoinTerm, E.EndingOf;
    var c, thn, els := ss[0].cond, ss[0].thn, ss[0].els;
    HeadParts(ss, st.env, g);
    assert ss[0] == IfElse(c, thn, els);
    LaidIfElse(bs, st, parent, c, thn, els, g);
  }

  lemma HeadParts(ss: seq<Stmt>, env: Env, g: Site)
    requires KnownStmts(ss, env, g) && ss != [] && ss[0].IfElse?
    ensures KnownStmts(ss[0].thn, env, g) && KnownStmts(ss[0].els, env, g)
  {
  }

  lemma {:induction false} HeadFor(bs: seq<Block>, st: State, parent: Option<Label>, ss: seq<Stmt>, t: Term, g: Site)
    requires RestLaid(bs, st, parent, ss, t, g) && ss[0].For?
    ensures CodeAt(bs, st.block, Here(st), ss, st.env, t, g)
    decreases ss, 0, 1
  {
    hide EmitStmt, EmitStmts, Holds, EndsAt, Known, HeadAt;
    var test, step, body := ss[0].test, ss[0].step, ss[0].body;
    BodyKnown(ss, st.env, g);
    assert ss[0] == For(test, step, body);
    LaidFor(bs, st, parent, test, step, body, g);
  }

  lemma BodyKnown(ss: seq<Stmt>, env: Env, g: Site)
    requires KnownStmts(ss, env, g) && ss != [] && ss[0].For?
    ensures KnownStmts(ss[0].body, env, g)
  {
  }

  lemma TailKnown(st: State, parent: Option<Label>, ss: seq<Stmt>, g: Site)
    requires st.Valid() && ss != [] && KnownStmts(ss, st.env, g)
    ensures KnownStmts(ss[1..], EmitStmt(st, parent, ss[0], g).env, g)
  {
    var rest := ss[1..];
    assert forall k :: 0 <= k < |rest| ==> rest[k] == ss[k + 1];
  }

  lemma LaidYield(bs: seq<Block>, st: State, parent: Option<Label>, out: Option<Exp>, g: Site)
    requires st.Valid()
    requires Holds(bs, st, EmitStmt(st, parent, Yield(out), g))
    ensures var nb, ins := EmitStmt(st, parent, Yield(out), g).block, ResultOf(out, st.env, g);
      && At(bs, st.block, Here(st), ins + [PutAddress(g.resume, nb)])
      && EndsAt(bs, st.block, Here(st) + |ins| + 1, Return(true))
      && EmitStmt(st, parent, Yield(out), g).blocks[nb].instrs == []
  {
    var r := EmitStmt(st, parent, Yield(out), g);
    assert bs[st.block] == r.blocks[st.block];
  }

  lemma {:induction false} LaidIf(bs: seq<Block>, st: State, parent: Option<Label>, c: Exp, thn: seq<Stmt>, g: Site)
    requires st.Valid() && KnownStmts(thn, st.env, g)
    requires Holds(bs, st, EmitStmt(st, parent, If(c, thn), g))
    ensures var end := EmitStmt(st, parent, If(c, thn), g).block;
      && EndsAt(bs, st.block, Here(st), CondBr(Lower(c, st.env, g), |st.blocks|, end))
      && CodeAt(bs, |st.blocks|, 0, thn, Child(st.env), JoinTerm(E.EndingOf(thn), end, st.block), g)
    ensures var r := EmitStmt(st, parent, If(c, thn), g); r.blocks[r.block].instrs == [] && r.env == st.env
    decreases thn, 2
  {
    var t := State(st.blocks + [FRESH], |st.blocks|, Child(st.env));
    hide EmitStmt, EmitStmts, CodeAt, EndsAt, Slotted, Known, Holds, Fragment, Here;
    IfHeld(bs, st, parent, c, thn, g);
    ChildKnown(st.env, g);
    Laid(bs, t, Some(st.block), thn, JoinTerm(E.EndingOf(thn), EmitStmt(st, parent, If(c, thn), g).block, st.block), g);
  }

  /** An `if` as it stands in the finished emission. */
  lemma IfHeld(bs: seq<Block>, st: State, parent: Option<Label>, c: Exp, thn: seq<Stmt>, g: Site)
    requires st.Valid() && Holds(bs, st, EmitStmt(st, parent, If(c, thn), g))
    ensures var r := EmitStmt(st, parent, If(c, thn), g);
      && EndsAt(bs, st.block, Here(st), CondBr(Lower(c, st.env, g), |st.blocks|, r.block))
      && r.blocks[r.block].instrs == [] && r.env == st.env
    ensures var t, r := State(st.blocks + [FRESH], |st.blocks|, Child(st.env)), EmitStmt(st, parent, If(c, thn), g);
      var r1 := EmitStmts(t, Some(st.block), thn, g);
      Here(t) == 0 && Holds(bs, t, r1) && EndsAt(bs, r1.block, Here(r1), JoinTerm(E.EndingOf(thn), r.block, st.block))
  {
    var n := |st.blocks|;
    var t := State(st.blocks + [FRESH], n, Child(st.env));
    var r1, r := EmitStmts(t, Some(st.block), thn, g), EmitStmt(st, parent, If(c, thn), g);
    StmtsFinish(t, Some(st.block), thn, g);
    StmtsGrow(t, Some(st.block), thn, g);
    hide EmitStmts;
    assert bs[st.block] == r.blocks[st.block] && bs[n] == r.blocks[n] && bs[r1.block] == r.blocks[r1.block];
  }

  /** A branch emitted from `st` to `r`: it stays in its first block, or ends in a block
      that leads to the join or nowhere and has closed its first. */
  ghost predicate Branch(st: State, r: State, e: E.Ending, end: Label) {
    Grown(st, r) && st.blocks[st.block] == FRESH && Finishes(st, r, Some(end), e)
  }

  /** The blocks after both branches, with the open ones led to the join. */
  function BranchesJoined(bs: seq<Block>, n: Label, parent: Option<Label>): (r: seq<Block>)
    requires n + 2 < |bs|
    ensures |r| == |bs|
  {
    JoinParent(TerminateIfOpen(TerminateIfOpen(bs, n, Br(n + 2)), n + 1, Br(n + 2)), n + 2, parent)
  }

  /** Two branches, the second emitted after the first, from the fresh blocks `n` and `n + 1`. */
  ghost predicate Forked(n: Label, env: Env, t: State, r1: State, e1: E.Ending, e: State, r2: State, e2: E.Ending) {
    && Branch(t, r1, e1, n + 2) && t.block == n && |t.blocks| == n + 3 && t.blocks[n + 1] == FRESH
    && Branch(e, r2, e2, n + 2) && e.blocks == r1.blocks && e.block == n + 1 && t.env == e.env == env
  }

  /** The final blocks hold those after both branches, joined. */
  ghost predicate JoinedIn(bs: seq<Block>, n: Label, r2: State, parent: Option<Label>) {
    n + 2 < |r2.blocks| &&
    var r := BranchesJoined(r2.blocks, n, parent);
    |r| <= |bs| && forall l :: n <= l < |r| && l != n + 2 ==> bs[l] == r[l]
  }

  /** The first branch as it stands in the finished emission. */
  lemma ThenHeld(bs: seq<Block>, n: Label, env: Env, t: State, r1: State, e1: E.Ending, e: State, r2: State,
          e2: E.Ending, parent: Option<Label>)
    requires Forked(n, env, t, r1, e1, e, r2, e2) && JoinedIn(bs, n, r2, parent)
    ensures Holds(bs, t, r1) && EndsAt(bs, r1.block, Here(r1), JoinTerm(e1, n + 2, n + 2))
    ensures t.block == n && t.Valid() && Here(t) == 0 && t.env == env
  {
    var r := BranchesJoined(r2.blocks, n, parent);
    assert r1.block != n + 1 && r1.block != n + 2;
    forall l | 0 <= l < |r1.blocks| && (l == n || l >= n + 3) && l != r1.block ensures bs[l] == r1.blocks[l] {
      assert r2.blocks[l] == e.blocks[l] && bs[l] == r[l];
    }
    assert r2.blocks[r1.block] == r1.blocks[r1.block] && bs[r1.block] == r[r1.block];
  }

  /** The second branch as it stands in the finished emission. */
  lemma ElseHeld(bs: seq<Block>, n: Label, env: Env, t: State, r1: State, e1: E.Ending, e: State, r2: State,
          e2: E.Ending, parent: Option<Label>)
    requires Forked(n, env, t, r1, e1, e, r2, e2) && JoinedIn(bs, n, r2, parent)
    ensures Holds(bs, e, r2) && EndsAt(bs, r2.block, Here(r2), JoinTerm(e2, n + 2, n + 2))
    ensures e.block == n + 1 && e.Valid() && Here(e) == 0 && e.env == env
  {
    var r := BranchesJoined(r2.blocks, n, parent);
    assert r2.block != n && r2.block != n + 2;
    assert bs[r2.block] == r[r2.block];
  }

  /** The two branches, as emission leaves them. */
  lemma Branches(st: State, c: Exp, thn: seq<Stmt>, els: seq<Stmt>, g: Site)
    requires st.Valid()
    ensures var n, t, e := |st.blocks|, ThenState(st, c, g), ElseState(st, c, thn, g);
      Forked(n, Child(st.env), t, EmitStmts(t, Some(n + 2), thn, g), E.EndingOf(thn), e,
        EmitStmts(e, Some(n + 2), els, g), E.EndingOf(els))
  {
    ThenBranch(st, c, thn, g);
    ElseBranch(st, c, thn, els, g);
    hide EmitStmts, EmitStmt, Branch, ThenState, ElseState, E.EndingOf;
    BranchStarts(st, c, thn, g);
  }

  lemma BranchesJoinedIn(bs: seq<Block>, st: State, parent: Option<Label>, c: Exp, thn: seq<Stmt>, els: seq<Stmt>,
          g: Site)
    requires st.Valid() && Holds(bs, st, EmitStmt(st, parent, IfElse(c, thn, els), g))
    ensures JoinedIn(bs, |st.blocks|, EmitStmts(ElseState(st, c, thn, g), Some(|st.blocks| + 2), els, g), parent)
  {
    hide EmitStmt, EmitStmts, ElseState, BranchesJoined, Holds;
    IfElseSets(st, parent, c, thn, els, g);
    HeldBeyond(bs, st, EmitStmt(st, parent, IfElse(c, thn, els), g));
    IfElseBlocks(st, parent, c, thn, els, g);
  }

  lemma ThenBranch(st: State, c: Exp, thn: seq<Stmt>, g: Site)
    requires st.Valid()
    ensures var n, t := |st.blocks|, ThenState(st, c, g);
      Branch(t, EmitStmts(t, Some(n + 2), thn, g), E.EndingOf(thn), n + 2)
  {
    hide EmitStmts, EmitStmt, Branch, ThenState, E.EndingOf;
    BranchStarts(st, c, thn, g);
    OneBranch(ThenState(st, c, g), |st.blocks| + 2, thn, g);
  }

  lemma ElseBranch(st: State, c: Exp, thn: seq<Stmt>, els: seq<Stmt>, g: Site)
    requires st.Valid()
    ensures var n, e := |st.blocks|, ElseState(st, c, thn, g);
      Branch(e, EmitStmts(e, Some(n + 2), els, g), E.EndingOf(els), n + 2)
  {
    var n, t, e := |st.blocks|, ThenState(st, c, g), ElseState(st, c, thn, g);
    ThenBranch(st, c, thn, g);
    hide EmitStmts, EmitStmt, Branch, ThenState, ElseState, E.EndingOf;
    BranchStarts(st, c, thn, g);
    BranchKeeps(t, EmitStmts(t, Some(n + 2), thn, g), E.EndingOf(thn), n + 2, n + 1);
    OneBranch(e, n + 2, els, g);
  }

  lemma BranchStarts(st: State, c: Exp, thn: seq<Stmt>, g: Site)
    requires st.Valid()
    ensures var n, t, e := |st.blocks|, ThenState(st, c, g), ElseState(st, c, thn, g);
      && |t.blocks| == n + 3 && t.block == n && t.blocks[n] == t.blocks[n + 1] == FRESH
        && t.env == e.env == Child(st.env)
      && e.block == n + 1 && e.blocks == EmitStmts(t, Some(n + 2), thn, g).blocks
  {
    hide EmitStmts;
  }

  lemma BranchKeeps(st: State, r: State, e: E.Ending, end: Label, l: Label)
    requires Branch(st, r, e, end) && l < |st.blocks| && l != st.block
    ensures |st.blocks| <= |r.blocks| && r.blocks[l] == st.blocks[l]
  {
  }

  lemma OneBranch(st: State, end: Label, ss: seq<Stmt>, g: Site)
    requires st.Valid() && st.blocks[st.block] == FRESH
    ensures Branch(st, EmitStmts(st, Some(end), ss, g), E.EndingOf(ss), end)
  {
    hide EmitStmts, E.EndingOf;
    StmtsGrow(st, Some(end), ss, g);
    StmtsFinish(st, Some(end), ss, g);
  }

  lemma {:induction false} LaidIfElse(bs: seq<Block>, st: State, parent: Option<Label>, c: Exp, thn: seq<Stmt>,
          els: seq<Stmt>, g: Site)
    requires st.Valid() && KnownStmts(thn, st.env, g) && KnownStmts(els, st.env, g)
    requires Holds(bs, st, EmitStmt(st, parent, IfElse(c, thn, els), g))
    ensures var n := |st.blocks|;
      && EndsAt(bs, st.block, Here(st), CondBr(Lower(c, st.env, g), n, n + 1))
      && CodeAt(bs, n, 0, thn, Child(st.env), JoinTerm(E.EndingOf(thn), n + 2, n + 2), g)
      && CodeAt(bs, n + 1, 0, els, Child(st.env), JoinTerm(E.EndingOf(els), n + 2, n + 2), g)
    ensures var r := EmitStmt(st, parent, IfElse(c, thn, els), g);
      r.block == |st.blocks| + 2 && r.blocks[r.block].instrs == [] && r.env == st.env
    decreases IfElse(c, thn, els), 0
  {
    var n, t, e := |st.blocks|, ThenState(st, c, g), ElseState(st, c, thn, g);
    hide EmitStmt, EmitStmts, CodeAt, EndsAt, Slotted, Known, Holds, Fragment, ThenState, ElseState, Here, JoinTerm;
    IfElseHeld(bs, st, parent, c, thn, els, g);
    BranchesHeld(bs, st, parent, c, thn, els, g);
    ChildKnown(st.env, g);
    Laid(bs, t, Some(n + 2), thn, JoinTerm(E.EndingOf(thn), n + 2, n + 2), g);
    Laid(bs, e, Some(n + 2), els, JoinTerm(E.EndingOf(els), n + 2, n + 2), g);
  }

  /** The blocks around an if/else as they stand in the finished emission. */
  lemma IfElseHeld(bs: seq<Block>, st: State, parent: Option<Label>, c: Exp, thn: seq<Stmt>, els: seq<Stmt>, g: Site)
    requires st.Valid() && Holds(bs, st, EmitStmt(st, parent, IfElse(c, thn, els), g))
    ensures var n, r := |st.blocks|, EmitStmt(st, parent, IfElse(c, thn, els), g);
      && EndsAt(bs, st.block, Here(st), CondBr(Lower(c, st.env, g), n, n + 1))
      && r.block == n + 2 && r.blocks[r.block].instrs == [] && r.env == st.env
  {
    hide EmitStmt, EmitStmts, Holds;
    IfElseSets(st, parent, c, thn, els, g);
    HeldBeyond(bs, st, EmitStmt(st, parent, IfElse(c, thn, els), g));
  }

  /** Its branches as they stand in the finished emission. */
  lemma BranchesHeld(bs: seq<Block>, st: State, parent: Option<Label>, c: Exp, thn: seq<Stmt>, els: seq<Stmt>, g: Site)
    requires st.Valid() && Holds(bs, st, EmitStmt(st, parent, IfElse(c, thn, els), g))
    ensures var n, t, e := |st.blocks|, ThenState(st, c, g), ElseState(st, c, thn, g);
      var r1, r2 := EmitStmts(t, Some(n + 2), thn, g), EmitStmts(e, Some(n + 2), els, g);
      && t.block == n && e.block == n + 1 && Here(t) == 0 && Here(e) == 0 && t.env == e.env == Child(st.env)
      && Holds(bs, t, r1) && EndsAt(bs, r1.block, Here(r1), JoinTerm(E.EndingOf(thn), n + 2, n + 2))
      && Holds(bs, e, r2) && EndsAt(bs, r2.block, Here(r2), JoinTerm(E.EndingOf(els), n + 2, n + 2))
  {
    var n, t, e := |st.blocks|, ThenState(st, c, g), ElseState(st, c, thn, g);
    var e1, e2 := E.EndingOf(thn), E.EndingOf(els);
    hide EmitStmt, EmitStmts, ThenState, ElseState, Holds, JoinTerm, E.EndingOf, EndsAt, Here, Forked, JoinedIn;
    Branches(st, c, thn, els, g);
    BranchesJoinedIn(bs, st, parent, c, thn, els, g);
    var r1, r2 := EmitStmts(t, Some(n + 2), thn, g), EmitStmts(e, Some(n + 2), els, g);
    ThenHeld(bs, n, Child(st.env), t, r1, e1, e, r2, e2, parent);
    ElseHeld(bs, n, Child(st.env), t, r1, e1, e, r2, e2, parent);
  }

  lemma HeldBeyond(bs: seq<Block>, st: State, r: State)
    requires Holds(bs, st, r) && r.block >= |st.blocks|
    ensures |r.blocks| <= |bs| && bs[st.block] == r.blocks[st.block]
    ensures forall l :: |st.blocks| <= l < |r.blocks| && l != r.block ==> bs[l] == r.blocks[l]
  {
  }

  lemma IfElseBlocks(st: State, parent: Option<Label>, c: Exp, thn: seq<Stmt>, els: seq<Stmt>, g: Site)
    requires st.Valid()
    ensures var n := |st.blocks|; var r2 := EmitStmts(ElseState(st, c, thn, g), Some(n + 2), els, g).blocks;
      n + 2 < |r2| && EmitStmt(st, parent, IfElse(c, thn, els), g).blocks == BranchesJoined(r2, n, parent)
  {
    hide EmitStmt, EmitStmts, Terminate, TerminateIfOpen, JoinParent, Lower;
    var n := |st.blocks|;
    var t := ThenState(st, c, g);
    assert t == State(Terminate(st.blocks + [FRESH, FRESH, FRESH], st.block, CondBr(Lower(c, st.env, g), n, n + 1)), n,
      Child(st.env));
    assert ElseState(st, c, thn, g) == State(EmitStmts(t, Some(n + 2), thn, g).blocks, n + 1, Child(st.env));
    hide ThenState, ElseState;
    IfElseEmits(st, parent, c, thn, els, g);
  }

  lemma {:induction false} LaidFor(bs: seq<Block>, st: State, parent: Option<Label>, test: Option<Exp>,
          step: Option<(string, Exp)>, body: seq<Stmt>, g: Site)
    requires st.Valid() && KnownStmts(body, st.env, g)
    requires Holds(bs, st, EmitStmt(st, parent, For(test, step, body), g))
    ensures var n := |st.blocks|; var enter := Enter(test, st.env, n + 1, n + 2, g);
      && EndsAt(bs, st.block, Here(st), enter) && HeadAt(bs, n, test, step, st.env, enter, g)
      && CodeAt(bs, n + 1, 0, body, Child(st.env), Br(n), g)
    ensures var r := EmitStmt(st, parent, For(test, step, body), g);
      r.block == |st.blocks| + 2 && r.blocks[r.block].instrs == [] && r.env == st.env
    decreases body, 2
  {
    hide EmitStmt, EmitStmts, CodeAt, EndsAt, HeadAt, Slotted, Fragment, Known, Holds, BodyState, Here;
    ForHeld(bs, st, parent, test, step, body, g);
    ChildKnown(st.env, g);
    Laid(bs, BodyState(st, test, g), Some(|st.blocks| + 2), body, Br(|st.blocks|), g);
  }

  lemma ChildKnown(env: Env, g: Site)
    requires Known(env, g.vals)
    ensures Known(Child(env), g.vals)
  {
  }

  /** A loop as it stands in the finished emission. */
  lemma ForHeld(bs: seq<Block>, st: State, parent: Option<Label>, test: Option<Exp>, step: Option<(string, Exp)>,
          body: seq<Stmt>, g: Site)
    requires st.Valid() && Holds(bs, st, EmitStmt(st, parent, For(test, step, body), g))
    ensures var n := |st.blocks|; var enter := Enter(test, st.env, n + 1, n + 2, g);
      EndsAt(bs, st.block, Here(st), enter) && HeadAt(bs, n, test, step, st.env, enter, g)
    ensures var r := EmitStmt(st, parent, For(test, step, body), g);
      r.block == |st.blocks| + 2 && r.blocks[r.block].instrs == [] && r.env == st.env
    ensures var n, b := |st.blocks|, BodyState(st, test, g); var r1 := EmitStmts(b, Some(n + 2), body, g);
      && b.block == n + 1 && Here(b) == 0 && b.env == Child(st.env)
      && Holds(bs, b, r1) && EndsAt(bs, r1.block, Here(r1), Br(n))
  {
    var n, r := |st.blocks|, EmitStmt(st, parent, For(test, step, body), g);
    var enter := Enter(test, st.env, n + 1, n + 2, g);
    var b := BodyState(st, test, g);
    var r1 := EmitStmts(b, Some(n + 2), body, g);
    StmtsGrow(b, Some(n + 2), body, g);
    hide EmitStmts;
    assert r1.blocks[n] == b.blocks[n] == FRESH && r1.blocks[n + 2] == b.blocks[n + 2] == FRESH;
    assert r.blocks[n] == Block(StepOf(step, st.env, g), enter);
    assert bs[n] == r.blocks[n] && bs[st.block] == r.blocks[st.block] && bs[r1.block] == r.blocks[r1.block];
  }
}
