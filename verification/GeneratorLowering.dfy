/** The basic blocks that the compiler emits for a generator's StepNext, and
    the machine that runs them. */
module GeneratorLowering {
  import opened Wrappers
  import opened GeneratorSyntax
  import opened GeneratorLayout

  type Label = nat

  datatype Value = Const(n: int) | Load(from: Path) | Op(op: BinOp, left: Value, right: Value)

  datatype Instr = Put(dst: Path, val: Value) | PutAddress(dst: Path, block: Label)

  /** Giving a block a terminator replaces the one it had. */
  datatype Term =
    | Open
    | Br(to: Label)
    | CondBr(cond: Value, yes: Label, no: Label)
    | Return(more: bool)
    | IndirectBr(from: Path)

  datatype Block = Block(instrs: seq<Instr>, term: Term)

  const FRESH := Block([], Open)

  /** What the emission of one generator reads: slots, resume address field, result field. */
  datatype Site = Site(vals: map<NodeId, Path>, resume: Path, result: Path)

  /** The function under construction as one scope sees it: all blocks, the block
      the scope currently appends to, and its variables. */
  datatype State = State(blocks: seq<Block>, block: Label, env: Env)
  {
    predicate Valid() { block < |blocks| }
  }

  function Lower(e: Exp, env: Env, g: Site): Value {
    match e
    case Lit(n) => Const(n)
    case Ref(x) =>
      (match Lookup(env, x)
       case None => Const(0)
       case Some(id) => if id in g.vals then Load(g.vals[id]) else Const(0))
    case Bin(op, l, r) => Op(op, Lower(l, env, g), Lower(r, env, g))
  }

  function Append(bs: seq<Block>, l: Label, ins: seq<Instr>): (r: seq<Block>)
    requires l < |bs|
  {
    bs[l := bs[l].(instrs := bs[l].instrs + ins)]
  }

  function Terminate(bs: seq<Block>, l: Label, t: Term): (r: seq<Block>)
    requires l < |bs|
  {
    bs[l := bs[l].(term := t)]
  }

  function TerminateIfOpen(bs: seq<Block>, l: Label, t: Term): (r: seq<Block>)
    requires l < |bs|
  {
    if bs[l].term == Open then Terminate(bs, l, t) else bs
  }

  function JoinParent(bs: seq<Block>, end: Label, parent: Option<Label>): (r: seq<Block>)
    requires end < |bs|
  {
    if parent.Some? then Terminate(bs, end, Br(parent.value)) else bs
  }

  /** The store of an assignment; none when the name or its slot is unknown. */
  function StoreOf(name: string, e: Exp, env: Env, g: Site): seq<Instr> {
    match Lookup(env, name)
    case None => []
    case Some(id) => if id in g.vals then [Put(g.vals[id], Lower(e, env, g))] else []
  }

  function StepOf(step: Option<(string, Exp)>, env: Env, g: Site): seq<Instr> {
    match step
    case None => []
    case Some(a) => StoreOf(a.0, a.1, env, g)
  }

  function DefOf(id: NodeId, e: Exp, env: Env, g: Site): seq<Instr> {
    if id in g.vals then [Put(g.vals[id], Lower(e, env, g))] else []
  }

  function ResultOf(out: Option<Exp>, env: Env, g: Site): seq<Instr> {
    match out
    case None => []
    case Some(e) => [Put(g.result, Lower(e, env, g))]
  }

  /** The branch into a loop: taken on entry and again at the end of each pass. */
  function Enter(test: Option<Exp>, env: Env, body: Label, end: Label, g: Site): Term {
    match test
    case None => Br(body)
    case Some(e) => CondBr(Lower(e, env, g), body, end)
  }

  /** One statement, in a scope whose parent scope currently appends to `parent`. */
  function EmitStmt(st: State, parent: Option<Label>, s: Stmt, g: Site): (r: State)
    requires st.Valid()
    ensures r.Valid() && |st.blocks| <= |r.blocks|
    decreases s, 0
  {
    var n := |st.blocks|;
    match s
    case Define(id, x, _) => st.(env := AddVar(st.env, x, id))
    case DefAssign(id, x, _, e) =>
      State(Append(st.blocks, st.block, DefOf(id, e, st.env, g)), st.block, AddVar(st.env, x, id))
    case Assign(x, e) => st.(blocks := Append(st.blocks, st.block, StoreOf(x, e, st.env, g)))
    case Yield(out) =>
      var b1 := Append(st.blocks, st.block, ResultOf(out, st.env, g)) + [FRESH];
      var b2 := Append(b1, st.block, [PutAddress(g.resume, n)]);
      State(Terminate(b2, st.block, Return(true)), n, st.env)
    case If(c, thn) =>
      var inner := EmitStmts(State(st.blocks + [FRESH], n, Child(st.env)), Some(st.block), thn, g);
      var end := |inner.blocks|;
      var b1 := Terminate(inner.blocks + [FRESH], st.block, CondBr(Lower(c, st.env, g), n, end));
      State(JoinParent(TerminateIfOpen(b1, n, Br(end)), end, parent), end, st.env)
    case IfElse(c, thn, els) =>
      var end := n + 2;
      var b1 := Terminate(st.blocks + [FRESH, FRESH, FRESH], st.block, CondBr(Lower(c, st.env, g), n, n + 1));
      var r1 := EmitStmts(State(b1, n, Child(st.env)), Some(end), thn, g);
      var r2 := EmitStmts(State(r1.blocks, n + 1, Child(st.env)), Some(end), els, g);
      var b2 := TerminateIfOpen(TerminateIfOpen(r2.blocks, n, Br(end)), n + 1, Br(end));
      State(JoinParent(b2, end, parent), end, st.env)
    case For(test, step, body) =>
      var enter := Enter(test, st.env, n + 1, n + 2, g);
      var b1 := Terminate(st.blocks + [FRESH, FRESH, FRESH], st.block, enter);
      var r1 := EmitStmts(State(b1, n + 1, Child(st.env)), Some(n + 2), body, g);
      var b2 := Terminate(Append(r1.blocks, n, StepOf(step, st.env, g)), n, enter);
      State(Terminate(b2, r1.block, Br(n)), n + 2, st.env)
    case Await(_, _) => st
    case DefAwait(id, x, _, _, _) => st.(env := AddVar(st.env, x, id))
  }

  function EmitStmts(st: State, parent: Option<Label>, ss: seq<Stmt>, g: Site): (r: State)
    requires st.Valid()
    ensures r.Valid() && |st.blocks| <= |r.blocks|
    decreases ss, 0
  {
    if ss == [] then st else EmitStmts(EmitStmt(st, parent, ss[0], g), parent, ss[1..], g)
  }

  function SiteOf(p: Program): Site {
    var f := FrameOf(p);
    Site(f.Vals(), [f.resume], [f.Result()])
  }

  const ENTRY: Label := 1

  /** StepNext: block 0 jumps to the resume address, block 1 starts the body.
      `outer` is the block open in the enclosing function, if any. */
  function Compile(p: Program, outer: Option<Label>): seq<Block> {
    var g, env := SiteOf(p), ParamScope(p.params, Child(Root));
    var r := EmitStmts(State([FRESH, FRESH], ENTRY, env), outer, p.body, g);
    var bs := Terminate(r.blocks, r.block, Return(false));
    Terminate(bs, 0, IndirectBr(g.resume))
  }

  // ----- the machine -----

  datatype Machine = Running(l: Label, i: nat, mem: Memory) | Returned(more: bool, mem: Memory) | Stuck

  function ValueOf(v: Value, mem: Memory): int {
    match v
    case Const(n) => n
    case Load(p) => Read(mem, p)
    case Op(op, l, r) => Apply(op, ValueOf(l, mem), ValueOf(r, mem))
  }

  function Execute(ins: Instr, mem: Memory): Memory {
    match ins
    case Put(p, v) => mem[p := ValueOf(v, mem)]
    case PutAddress(p, l) => mem[p := l]
  }

  function Tick(bs: seq<Block>, m: Machine): Machine {
    match m
    case Running(l, i, mem) =>
      if l >= |bs| then Stuck
      else if i < |bs[l].instrs| then Running(l, i + 1, Execute(bs[l].instrs[i], mem))
      else (match bs[l].term
            case Open => Stuck
            case Br(to) => Running(to, 0, mem)
            case CondBr(c, yes, no) => Running(if ValueOf(c, mem) != 0 then yes else no, 0, mem)
            case Return(more) => Returned(more, mem)
            case IndirectBr(p) => var to := Read(mem, p); if to < 0 then Stuck else Running(to, 0, mem))
    case _ => m
  }

  function Ticks(bs: seq<Block>, m: Machine, n: nat): Machine
    decreases n
  {
    if n == 0 then m else Ticks(bs, Tick(bs, m), n - 1)
  }

  /** One call of StepNext on the context `mem` returns `more` and leaves `mem'`. */
  ghost predicate StepNext(bs: seq<Block>, mem: Memory, more: bool, mem': Memory) {
    exists n: nat :: Ticks(bs, Running(0, 0, mem), n) == Returned(more, mem')
  }

  function GetCurrent(mem: Memory, g: Site): int { Read(mem, g.result) }

  // ----- setup -----

  function StoreArgs(slots: seq<Slot>, args: seq<int>, mem: Memory): Memory
    requires |slots| == |args|
  {
    if slots == [] then mem
    else
      var k := |slots| - 1;
      StoreArgs(slots[..k], args[..k], mem)[slots[k].path := args[k]]
  }

  /** The zeroed context with the arguments stored and the resume address at the body. */
  function Setup(p: Program, args: seq<int>): Memory
    requires |args| == |p.params|
  {
    StoreArgs(ParamSlots(p.params, |BuildCtx(p.body).1|), args, map[])[SiteOf(p).resume := ENTRY]
  }

  lemma IfElseEmits(st: State, parent: Option<Label>, c: Exp, thn: seq<Stmt>, els: seq<Stmt>, g: Site)
    requires st.Valid()
    ensures var n := |st.blocks|;
      var b1 := Terminate(st.blocks + [FRESH, FRESH, FRESH], st.block, CondBr(Lower(c, st.env, g), n, n + 1));
      |b1| == n + 3 &&
      var r1 := EmitStmts(State(b1, n, Child(st.env)), Some(n + 2), thn, g);
      var r2 := EmitStmts(State(r1.blocks, n + 1, Child(st.env)), Some(n + 2), els, g);
      var b2 := TerminateIfOpen(TerminateIfOpen(r2.blocks, n, Br(n + 2)), n + 1, Br(n + 2));
      |b2| == |r2.blocks| && EmitStmt(st, parent, IfElse(c, thn, els), g)
        == State(JoinParent(b2, n + 2, parent), n + 2, st.env)
  {
    hide EmitStmts;
  }

  lemma ForEmits(st: State, parent: Option<Label>, test: Option<Exp>, step: Option<(string, Exp)>, body: seq<Stmt>,
          g: Site)
    requires st.Valid()
    ensures var n := |st.blocks|;
      var enter := Enter(test, st.env, n + 1, n + 2, g);
      var b1 := Terminate(st.blocks + [FRESH, FRESH, FRESH], st.block, enter);
      |b1| == n + 3 &&
      var r1 := EmitStmts(State(b1, n + 1, Child(st.env)), Some(n + 2), body, g);
      var b2 := Terminate(Append(r1.blocks, n, StepOf(step, st.env, g)), n, enter);
      |b2| == |r1.blocks| && EmitStmt(st, parent, For(test, step, body), g)
        == State(Terminate(b2, r1.block, Br(n)), n + 2, st.env)
  {
    hide EmitStmts;
  }

  // ----- the emitter as the compiler runs it -----

  /** The function being emitted, with the current scope's fields. */
  class Emitter {
    var blocks: seq<Block>
    var block: Label
    var parent: Option<Label>
    var env: Env
    const g: Site

    ghost predicate Valid()
      reads this
    {
      block < |blocks|
    }

    function Now(): State
      reads this
    {
      State(blocks, block, env)
    }

    constructor (p: Program, outer: Option<Label>)
      ensures Valid() && Now() == State([FRESH, FRESH], ENTRY, ParamScope(p.params, Child(Root)))
      ensures parent == outer && g == SiteOf(p)
    {
      blocks, block, parent := [FRESH, FRESH], ENTRY, outer;
      env := ParamScope(p.params, Child(Root));
      g := SiteOf(p);
    }

    method NewBlock() returns (l: Label)
      modifies this`blocks
      ensures l == |old(blocks)| && blocks == old(blocks) + [FRESH]
    {
      l := |blocks|;
      blocks := blocks + [FRESH];
    }

    method Add(l: Label, ins: seq<Instr>)
      requires l < |blocks|
      modifies this`blocks
      ensures blocks == Append(old(blocks), l, ins) && |blocks| == |old(blocks)|
    {
      blocks := blocks[l := blocks[l].(instrs := blocks[l].instrs + ins)];
    }

    method SetTerm(l: Label, t: Term)
      requires l < |blocks|
      modifies this`blocks
      ensures blocks == Terminate(old(blocks), l, t) && |blocks| == |old(blocks)|
    {
      blocks := blocks[l := blocks[l].(term := t)];
    }

    /** Emits a statement list into a child scope that starts at `start`, then returns to this scope. */
    method InChild(start: Label, ss: seq<Stmt>) returns (last: Label)
      requires Valid() && start < |blocks|
      modifies this
      ensures Valid() && block == old(block) && parent == old(parent) && env == old(env)
      ensures var r := EmitStmts(State(old(blocks), start, Child(old(env))), Some(old(block)), ss, g);
              blocks == r.blocks && last == r.block
      decreases ss, 1
    {
      var b, up, e := block, parent, env;
      block, parent, env := start, Some(b), Child(e);
      CalcAll(ss);
      last := block;
      block, parent, env := b, up, e;
    }

    method CalcAll(ss: seq<Stmt>)
      requires Valid()
      modifies this
      ensures Valid() && parent == old(parent)
      ensures Now() == EmitStmts(old(Now()), parent, ss, g)
      decreases ss, 0
    {
      for k := 0 to |ss|
        invariant Valid() && parent == old(parent)
        invariant EmitStmts(Now(), parent, ss[k..], g) == EmitStmts(old(Now()), parent, ss, g)
      {
        assert ss[k..][1..] == ss[k + 1..];
        Calc(ss[k]);
      }
    }

    method Calc(s: Stmt)
      requires Valid()
      modifies this
      ensures Valid() && parent == old(parent)
      ensures Now() == EmitStmt(old(Now()), parent, s, g)
      decreases s, 0
    {
      match s
      case Define(id, x, _) => env := AddVar(env, x, id);
      case DefAssign(id, x, _, e) =>
        Add(block, DefOf(id, e, env, g));
        env := AddVar(env, x, id);
      case Assign(x, e) => Add(block, StoreOf(x, e, env, g));
      case Yield(out) =>
        Add(block, ResultOf(out, env, g));
        var nb := NewBlock();
        Add(block, [PutAddress(g.resume, nb)]);
        SetTerm(block, Return(true));
        block := nb;
      case If(c, thn) => CalcIf(c, thn);
      case IfElse(c, thn, els) => CalcIfElse(c, thn, els);
      case For(test, step, body) => CalcFor(test, step, body);
      case Await(_, _) =>
      case DefAwait(id, x, _, _, _) => env := AddVar(env, x, id);
    }

    method CalcIf(c: Exp, thn: seq<Stmt>)
      requires Valid()
      modifies this
      ensures Valid() && parent == old(parent)
      ensures Now() == EmitStmt(old(Now()), parent, If(c, thn), g)
      decreases thn, 2
    {
      var tt := NewBlock();
      var _ := InChild(tt, thn);
      var end := NewBlock();
      SetTerm(block, CondBr(Lower(c, env, g), tt, end));
      block := end;
      if blocks[tt].term == Open { SetTerm(tt, Br(end)); }
      if parent.Some? { SetTerm(end, Br(parent.value)); }
    }

    method CalcIfElse(c: Exp, thn: seq<Stmt>, els: seq<Stmt>)
      requires Valid()
      modifies this
      ensures Valid() && parent == old(parent)
      ensures Now() == EmitStmt(old(Now()), parent, IfElse(c, thn, els), g)
      decreases IfElse(c, thn, els), 0, 1
    {
      hide EmitStmt, EmitStmts, Terminate, TerminateIfOpen, JoinParent;
      IfElseEmits(Now(), parent, c, thn, els, g);
      var tt, tf, end := ThreeBlocks();
      SetTerm(block, CondBr(Lower(c, env, g), tt, tf));
      block := end;
      var _ := InChild(tt, thn);
      var _ := InChild(tf, els);
      SetIfOpen(tt, end);
      SetIfOpen(tf, end);
      SetParent(end);
    }

    method ThreeBlocks() returns (a: Label, b: Label, c: Label)
      modifies this`blocks
      ensures a == |old(blocks)| && b == a + 1 && c == a + 2 && blocks == old(blocks) + [FRESH, FRESH, FRESH]
    {
      a := NewBlock();
      b := NewBlock();
      c := NewBlock();
    }

    /** `if blocks[l].Term == nil`: a branch that ends nowhere yet is joined to the end. */
    method SetIfOpen(l: Label, end: Label)
      requires l < |blocks|
      modifies this`blocks
      ensures blocks == TerminateIfOpen(old(blocks), l, Br(end)) && |blocks| == |old(blocks)|
    {
      if blocks[l].term == Open { SetTerm(l, Br(end)); }
    }

    method SetParent(end: Label)
      requires end < |blocks|
      modifies this`blocks
      ensures blocks == JoinParent(old(blocks), end, parent) && |blocks| == |old(blocks)|
    {
      if parent.Some? { SetTerm(end, Br(parent.value)); }
    }

    method CalcFor(test: Option<Exp>, step: Option<(string, Exp)>, body: seq<Stmt>)
      requires Valid()
      modifies this
      ensures Valid() && parent == old(parent)
      ensures Now() == EmitStmt(old(Now()), parent, For(test, step, body), g)
      decreases body, 2
    {
      hide EmitStmt, EmitStmts, Terminate, Append;
      ForEmits(Now(), parent, test, step, body, g);
      var cond, start, end := ThreeBlocks();
      SetTerm(block, Enter(test, env, start, end, g));
      block := end;
      var last := InChild(start, body);
      Add(cond, StepOf(step, env, g));
      SetTerm(cond, Enter(test, env, start, end, g));
      SetTerm(last, Br(cond));
    }
  }

  /** The whole of StepNext. */
  method Build(p: Program, outer: Option<Label>) returns (bs: seq<Block>)
    ensures bs == Compile(p, outer)
  {
    var em := new Emitter(p, outer);
    em.CalcAll(p.body);
    em.SetTerm(em.block, Return(false));
    em.SetTerm(0, IndirectBr(em.g.resume));
    bs := em.blocks;
  }
}
