/** Running the emitted blocks and running the source as the emitted code takes it give the
    same values, the same locals at every suspension, and end or hang together. */
module GeneratorSimulation {
  import opened Wrappers
  import opened GeneratorSyntax
  import opened GeneratorLayout
  import opened GeneratorLowering
  import opened GeneratorCorrect
  import D = GeneratorDirect
  import E = GeneratorEmitted

  // ----- the relation between the two executions -----

  /** Terminator `t` leads on to frame `f`, whose own code ends with `t'`, unless the body
      before it falls elsewhere. */
  ghost predicate FrameAt(bs: seq<Block>, f: D.Frame, u: E.Fall, t: Term, t': Term, g: Site) {
    match f
    case Leave(rest, env) =>
      (match u
       case Joined => t.Br? && CodeAt(bs, t.to, 0, rest, env, t', g)
       case Nowhere => t == Open
       case Rerun(ss, env') => t.Br? && CodeAt(bs, t.to, 0, ss, env', t', g))
    case Again(test, step, body, rest, env) =>
      u.Joined? && t.Br? &&
      exists start: Label, end: Label ::
        HeadAt(bs, t.to, test, step, env, Enter(test, env, start, end, g), g)
        && CodeAt(bs, start, 0, body, Child(env), t, g) && CodeAt(bs, end, 0, rest, env, t', g)
  }

  ghost predicate FramesAt(bs: seq<Block>, k: seq<D.Frame>, us: seq<E.Fall>, ts: seq<Term>, g: Site) {
    && |us| == |k| && |ts| == |k| + 1 && ts[|k|] == Return(false)
    && forall j :: 0 <= j < |k| ==> FrameAt(bs, k[j], us[j], ts[j], ts[j + 1], g)
  }

  ghost predicate SameData(c: D.Config, mem: Memory, g: Site) {
    && (forall id :: id in g.vals ==> Read(mem, g.vals[id]) == Read(c.store, id))
    && Read(mem, g.result) == c.current
  }

  /** The machine is where the source is, in a block that begins where the source says. */
  ghost predicate Related(bs: seq<Block>, x: E.Tracked, l: Label, i: nat, mem: Memory, ts: seq<Term>, g: Site) {
    && x.Valid() && FramesAt(bs, x.c.k, x.falls, ts, g) && SameData(x.c, mem, g)
    && CodeAt(bs, l, i, x.c.ss, x.c.env, ts[0], g) && CodeAt(bs, l, 0, x.start, x.startEnv, ts[0], g)
  }

  ghost predicate SiteOk(g: Site) {
    && Separate(g.vals)
    && g.resume != g.result && |g.resume| == |g.result| == 1
    && forall id :: id in g.vals ==> g.vals[id] != g.resume && g.vals[id] != g.result
  }

  lemma {:induction false} LowerAgrees(e: Exp, env: Env, c: D.Config, mem: Memory, g: Site)
    requires Known(env, g.vals) && SameData(c, mem, g)
    ensures ValueOf(Lower(e, env, g), mem) == Eval(e, env, c.store)
  {
    match e
    case Lit(_) =>
    case Ref(x) => LookupKnown(env, x, g);
    case Bin(_, l, r) =>
      LowerAgrees(l, env, c, mem, g);
      LowerAgrees(r, env, c, mem, g);
  }

  lemma {:induction false} LookupKnown(env: Env, x: string, g: Site)
    requires Known(env, g.vals)
    ensures Lookup(env, x).Some? ==> Lookup(env, x).value in g.vals
  {
    if env.Scope? { LookupKnown(env.parent, x, g); }
  }

  /** Storing through a slot is storing to the cell of its node, and to nothing else. */
  lemma PutAgrees(c: D.Config, mem: Memory, id: NodeId, v: int, g: Site)
    requires SiteOk(g) && id in g.vals && SameData(c, mem, g)
    ensures SameData(c.(store := c.store[id := v]), mem[g.vals[id] := v], g)
  {
    forall other | other in g.vals
      ensures Read(mem[g.vals[id] := v], g.vals[other]) == Read(c.store[id := v], other)
    {
      if other != id { assert !Overlap(g.vals[id], g.vals[other]); }
    }
  }

  // ----- running several ticks -----

  lemma {:induction false} TicksAdd(bs: seq<Block>, m: Machine, a: nat, b: nat)
    ensures Ticks(bs, m, a + b) == Ticks(bs, Ticks(bs, m, a), b)
    decreases a
  {
    if a > 0 { TicksAdd(bs, Tick(bs, m), a - 1, b); }
  }

  lemma {:induction false} ReturnedStays(bs: seq<Block>, more: bool, mem: Memory, n: nat)
    ensures Ticks(bs, Returned(more, mem), n) == Returned(more, mem)
  {
    if n > 0 { ReturnedStays(bs, more, mem, n - 1); }
  }

  /** An assignment's store, if any, takes one tick. */
  lemma StoreRuns(bs: seq<Block>, l: Label, i: nat, x: string, e: Exp, env: Env, c: D.Config, mem: Memory, g: Site)
    returns (mem': Memory)
    requires SiteOk(g) && Known(env, g.vals) && SameData(c, mem, g) && At(bs, l, i, StoreOf(x, e, env, g))
    ensures var n := |StoreOf(x, e, env, g)|;
      Ticks(bs, Running(l, i, mem), n) == Running(l, i + n, mem')
    ensures SameData(c.(store := D.Write(x, e, env, c.store)), mem', g)
  {
    LowerAgrees(e, env, c, mem, g);
    LookupKnown(env, x, g);
    mem' := mem;
    if Lookup(env, x).Some? {
      var id, v := Lookup(env, x).value, Eval(e, env, c.store);
      var ins := Put(g.vals[id], Lower(e, env, g));
      assert bs[l].instrs[i..i + 1][0] == ins;
      PutAgrees(c, mem, id, v, g);
      mem' := mem[g.vals[id] := v];
      assert Tick(bs, Running(l, i, mem)) == Running(l, i + 1, mem');
      assert Ticks(bs, Running(l, i, mem), 1) == Ticks(bs, Tick(bs, Running(l, i, mem)), 0);
    }
  }

  /** The loop branch decides as direct execution does. */
  lemma LoopRuns(bs: seq<Block>, l: Label, i: nat, f: D.Frame, c: D.Config, us: seq<E.Fall>, head: Label, start: Label,
          end: Label, mem: Memory, ts: seq<Term>, g: Site)
    returns (l': Label, us': seq<E.Fall>, ts': seq<Term>)
    requires f.Again? && FramesAt(bs, c.k, us, ts, g) && SameData(c, mem, g)
    requires var enter := Enter(f.test, f.env, start, end, g);
      EndsAt(bs, l, i, enter) && HeadAt(bs, head, f.test, f.step, f.env, enter, g)
    requires CodeAt(bs, start, 0, f.body, Child(f.env), Br(head), g) && CodeAt(bs, end, 0, f.rest, f.env, ts[0], g)
    ensures Tick(bs, Running(l, i, mem)) == Running(l', 0, mem)
    ensures var c' := D.Loop(f, c);
      && us' == (if |c'.k| > |c.k| then [E.Joined] + us else us)
      && Related(bs, E.Tracked(c', c'.ss, c'.env, us'), l', 0, mem, ts', g)
  {
    if f.test.Some? { LowerAgrees(f.test.value, f.env, c, mem, g); }
    if D.Holds(f.test, f.env, c.store) {
      l', us', ts' := start, [E.Joined] + us, [Br(head)] + ts;
      FramesPush(bs, f, E.Joined, c.k, us, ts, Br(head), g);
    } else {
      l', us', ts' := end, us, ts;
    }
  }

  lemma FramesPush(bs: seq<Block>, f: D.Frame, u: E.Fall, k: seq<D.Frame>, us: seq<E.Fall>, ts: seq<Term>, t: Term,
          g: Site)
    requires FramesAt(bs, k, us, ts, g) && FrameAt(bs, f, u, t, ts[0], g)
    ensures FramesAt(bs, [f] + k, [u] + us, [t] + ts, g)
  {
    var k', us', ts' := [f] + k, [u] + us, [t] + ts;
    forall j | 0 <= j < |k'| ensures FrameAt(bs, k'[j], us'[j], ts'[j], ts'[j + 1], g) {
      if j > 0 { assert k'[j] == k[j - 1]; }
    }
  }

  lemma FramesPop(bs: seq<Block>, k: seq<D.Frame>, us: seq<E.Fall>, ts: seq<Term>, g: Site)
    requires FramesAt(bs, k, us, ts, g) && k != []
    ensures FramesAt(bs, k[1..], us[1..], ts[1..], g) && FrameAt(bs, k[0], us[0], ts[0], ts[1], g)
  {
    var k', us', ts' := k[1..], us[1..], ts[1..];
    forall j | 0 <= j < |k'| ensures FrameAt(bs, k'[j], us'[j], ts'[j], ts'[j + 1], g) {
      assert FrameAt(bs, k[j + 1], us[j + 1], ts[j + 1], ts[j + 2], g);
    }
  }

  // ----- one step over the source is some ticks of the machine -----

  /** The machine, after `n` ticks, has followed one step. */
  ghost predicate Followed(bs: seq<Block>, x: E.Tracked, m: Machine, n: nat, l': Label, i': nat, mem': Memory,
          ts': seq<Term>, g: Site)
    requires x.Valid()
  {
    match E.Step(x)
    case Going(x1) =>
      Ticks(bs, m, n) == Running(l', i', mem') && Related(bs, x1, l', i', mem', ts', g)
      && (n == 0 ==> |x1.c.ss| < |x.c.ss|)
    case Yielded(x1) =>
      Ticks(bs, m, n) == Returned(true, mem') && Read(mem', g.resume) == l' && i' == 0
      && Related(bs, x1, l', 0, mem', ts', g)
    case Ended(_) => Ticks(bs, m, n) == Returned(false, mem')
    case Hung => Ticks(bs, m, n) == Stuck
  }

  lemma Follow(bs: seq<Block>, x: E.Tracked, l: Label, i: nat, mem: Memory, ts: seq<Term>, g: Site)
    returns (n: nat, l': Label, i': nat, mem': Memory, ts': seq<Term>)
    requires SiteOk(g) && Related(bs, x, l, i, mem, ts, g)
    ensures Followed(bs, x, Running(l, i, mem), n, l', i', mem', ts', g)
  {
    hide Followed, SiteOk, CodeAt, FramesAt, SameData;
    if x.c.ss == [] {
      if x.c.k == [] {
        FollowEnd(bs, x, l, i, mem, ts, g);
        n, l', i', mem', ts' := 1, l, i, mem, ts;
      } else if x.c.k[0].Leave? {
        l', ts' := FollowLeave(bs, x, l, i, mem, ts, g);
        n, i', mem' := 1, 0, mem;
      } else {
        n, l', mem', ts' := FollowBack(bs, x, l, i, mem, ts, g);
        i' := 0;
      }
    } else if x.c.ss[0].Yield? {
      n, l', mem' := FollowYield(bs, x, l, i, mem, ts, g);
      i', ts' := 0, ts;
    } else if x.c.ss[0].If? {
      l', ts' := FollowIf(bs, x, l, i, mem, ts, g);
      n, i', mem' := 1, 0, mem;
    } else if x.c.ss[0].IfElse? {
      l', ts' := FollowIfElse(bs, x, l, i, mem, ts, g);
      n, i', mem' := 1, 0, mem;
    } else if x.c.ss[0].For? {
      l', ts' := FollowFor(bs, x, l, i, mem, ts, g);
      n, i', mem' := 1, 0, mem;
    } else {
      n, mem' := FollowSimple(bs, x, l, i, mem, ts, g);
      l', i', ts' := l, i + n, ts;
    }
  }

  lemma FollowEnd(bs: seq<Block>, x: E.Tracked, l: Label, i: nat, mem: Memory, ts: seq<Term>, g: Site)
    requires SiteOk(g) && Related(bs, x, l, i, mem, ts, g) && x.c.ss == [] && x.c.k == []
    ensures Followed(bs, x, Running(l, i, mem), 1, l, i, mem, ts, g)
  {
    OneTick(bs, Running(l, i, mem));
  }

  /** Statements that stay in their block. */
  lemma FollowSimple(bs: seq<Block>, x: E.Tracked, l: Label, i: nat, mem: Memory, ts: seq<Term>, g: Site)
    returns (n: nat, mem': Memory)
    requires SiteOk(g) && Related(bs, x, l, i, mem, ts, g) && x.c.ss != []
    requires var s := x.c.ss[0]; !s.Yield? && !s.If? && !s.IfElse? && !s.For?
    ensures Followed(bs, x, Running(l, i, mem), n, l, i + n, mem', ts, g)
  {
    hide FramesAt;
    var c := x.c;
    match c.ss[0]
    case Define(_, _, _) => n, mem' := 0, mem;
    case DefAssign(_, _, _, _) =>
      n := 1;
      mem' := FollowDef(bs, x, l, i, mem, ts, g);
    case Assign(y, e) =>
      mem' := StoreRuns(bs, l, i, y, e, c.env, c, mem, g);
      n := |StoreOf(y, e, c.env, g)|;
  }

  /** The end of a body: on to the rest, back to the start of a block, or nowhere. */
  lemma FollowLeave(bs: seq<Block>, x: E.Tracked, l: Label, i: nat, mem: Memory, ts: seq<Term>, g: Site)
    returns (l': Label, ts': seq<Term>)
    requires SiteOk(g) && Related(bs, x, l, i, mem, ts, g) && x.c.ss == [] && x.c.k != [] && x.c.k[0].Leave?
    ensures Followed(bs, x, Running(l, i, mem), 1, l', 0, mem, ts', g)
  {
    FramesPop(bs, x.c.k, x.falls, ts, g);
    OneTick(bs, Running(l, i, mem));
    ts' := ts[1..];
    l' := if ts[0].Br? then ts[0].to else l;
    assert EndsAt(bs, l, i, ts[0]);
    hide CodeAt;
    if x.falls[0] != E.Nowhere { RestAfter(x.c, E.Step(x).x.c, mem, g); }
  }

  lemma OneTick(bs: seq<Block>, m: Machine)
    ensures Ticks(bs, m, 1) == Tick(bs, m)
  {
    assert Ticks(bs, m, 1) == Ticks(bs, Tick(bs, m), 0);
  }

  lemma FollowDef(bs: seq<Block>, x: E.Tracked, l: Label, i: nat, mem: Memory, ts: seq<Term>, g: Site)
    returns (mem': Memory)
    requires SiteOk(g) && Related(bs, x, l, i, mem, ts, g) && x.c.ss != [] && x.c.ss[0].DefAssign?
    ensures Followed(bs, x, Running(l, i, mem), 1, l, i + 1, mem', ts, g)
  {
    var id, e := x.c.ss[0].id, x.c.ss[0].val;
    LowerAgrees(e, x.c.env, x.c, mem, g);
    assert bs[l].instrs[i..i + 1][0] == Put(g.vals[id], Lower(e, x.c.env, g));
    mem' := mem[g.vals[id] := Eval(e, x.c.env, x.c.store)];
    PutAgrees(x.c, mem, id, Eval(e, x.c.env, x.c.store), g);
    OneTick(bs, Running(l, i, mem));
  }

  /** The store of a yielded value, if any, takes one tick. */
  lemma ResultRuns(bs: seq<Block>, l: Label, i: nat, out: Option<Exp>, c: D.Config, mem: Memory, g: Site)
    returns (mem': Memory)
    requires SiteOk(g) && Known(c.env, g.vals) && SameData(c, mem, g) && At(bs, l, i, ResultOf(out, c.env, g))
    ensures var n := |ResultOf(out, c.env, g)|;
      Ticks(bs, Running(l, i, mem), n) == Running(l, i + n, mem')
    ensures SameData(if out.Some? then c.(current := Eval(out.value, c.env, c.store)) else c, mem', g)
  {
    mem' := mem;
    if out.Some? {
      LowerAgrees(out.value, c.env, c, mem, g);
      assert bs[l].instrs[i..i + 1][0] == Put(g.result, Lower(out.value, c.env, g));
      mem' := mem[g.result := Eval(out.value, c.env, c.store)];
      OneTick(bs, Running(l, i, mem));
    }
  }

  /** Storing the resume address and returning. */
  lemma SuspendRuns(bs: seq<Block>, l: Label, i: nat, nb: Label, c: D.Config, mem: Memory, g: Site)
    returns (mem': Memory)
    requires SiteOk(g) && SameData(c, mem, g) && At(bs, l, i, [PutAddress(g.resume, nb)])
      && EndsAt(bs, l, i + 1, Return(true))
    ensures Ticks(bs, Running(l, i, mem), 2) == Returned(true, mem') && Read(mem', g.resume) == nb
      && SameData(c, mem', g)
  {
    mem' := mem[g.resume := nb];
    assert bs[l].instrs[i..i + 1][0] == PutAddress(g.resume, nb);
    OneTick(bs, Running(l, i, mem));
    OneTick(bs, Running(l, i + 1, mem'));
    TicksAdd(bs, Running(l, i, mem), 1, 1);
  }

  lemma AtSplit(bs: seq<Block>, l: Label, i: nat, a: seq<Instr>, b: seq<Instr>)
    requires At(bs, l, i, a + b)
    ensures At(bs, l, i, a) && At(bs, l, i + |a|, b)
  {
    var w := bs[l].instrs[i..i + |a + b|];
    assert bs[l].instrs[i..i + |a|] == w[..|a|] && bs[l].instrs[i + |a|..i + |a| + |b|] == w[|a|..];
  }

  lemma FollowYield(bs: seq<Block>, x: E.Tracked, l: Label, i: nat, mem: Memory, ts: seq<Term>, g: Site)
    returns (n: nat, nb: Label, mem': Memory)
    requires SiteOk(g) && Related(bs, x, l, i, mem, ts, g) && x.c.ss != [] && x.c.ss[0].Yield?
    ensures Followed(bs, x, Running(l, i, mem), n, nb, 0, mem', ts, g)
  {
    var rest, c1 := x.c.ss[1..], Shown(x.c.ss[0].out, x.c);
    assert E.Step(x) == E.Yielded(E.Tracked(c1.(ss := rest), rest, x.c.env, x.falls));
    hide E.Step, Shown, CodeAt, SameData, SiteOk, FramesAt;
    nb := YieldLaid(bs, l, i, x.c.ss, x.c.env, ts[0], g);
    n, mem' := YieldRuns(bs, l, i, x.c.ss[0].out, nb, x.c, mem, g);
    RestAfter(c1, c1.(ss := rest), mem', g);
  }

  /** The configuration with the yielded value, if any, on show. */
  function Shown(out: Option<Exp>, c: D.Config): (r: D.Config) {
    if out.Some? then c.(current := Eval(out.value, c.env, c.store)) else c
  }

  lemma YieldRuns(bs: seq<Block>, l: Label, i: nat, out: Option<Exp>, nb: Label, c: D.Config, mem: Memory, g: Site)
    returns (n: nat, mem': Memory)
    requires SiteOk(g) && SameData(c, mem, g) && Known(c.env, g.vals)
    requires var ins := ResultOf(out, c.env, g);
      At(bs, l, i, ins + [PutAddress(g.resume, nb)]) && EndsAt(bs, l, i + |ins| + 1, Return(true))
    ensures Ticks(bs, Running(l, i, mem), n) == Returned(true, mem') && Read(mem', g.resume) == nb
    ensures SameData(Shown(out, c), mem', g)
  {
    var ins := ResultOf(out, c.env, g);
    hide At, EndsAt, SameData, SiteOk, Ticks, ResultOf;
    AtSplit(bs, l, i, ins, [PutAddress(g.resume, nb)]);
    var mem1 := ResultRuns(bs, l, i, out, c, mem, g);
    mem' := SuspendRuns(bs, l, i + |ins|, nb, Shown(out, c), mem1, g);
    TicksAdd(bs, Running(l, i, mem), |ins|, 2);
    n := |ins| + 2;
  }

  lemma YieldLaid(bs: seq<Block>, l: Label, i: nat, ss: seq<Stmt>, env: Env, t: Term, g: Site) returns (nb: Label)
    requires CodeAt(bs, l, i, ss, env, t, g) && ss != [] && ss[0].Yield?
    ensures var ins := ResultOf(ss[0].out, env, g);
      && Known(env, g.vals) && At(bs, l, i, ins + [PutAddress(g.resume, nb)])
        && EndsAt(bs, l, i + |ins| + 1, Return(true))
      && CodeAt(bs, nb, 0, ss[1..], env, t, g)
  {
    var ins := ResultOf(ss[0].out, env, g);
    hide At, EndsAt, ResultOf, Known;
    nb :| At(bs, l, i, ins + [PutAddress(g.resume, nb)]) && EndsAt(bs, l, i + |ins| + 1, Return(true))
      && CodeAt(bs, nb, 0, ss[1..], env, t, g);
  }

  lemma RestAfter(c: D.Config, c': D.Config, mem: Memory, g: Site)
    requires SameData(c, mem, g) && c'.store == c.store && c'.current == c.current
    ensures SameData(c', mem, g)
  {
  }

  lemma FollowIf(bs: seq<Block>, x: E.Tracked, l: Label, i: nat, mem: Memory, ts: seq<Term>, g: Site)
    returns (l': Label, ts': seq<Term>)
    requires SiteOk(g) && Related(bs, x, l, i, mem, ts, g) && x.c.ss != [] && x.c.ss[0].If?
    ensures Followed(bs, x, Running(l, i, mem), 1, l', 0, mem, ts', g)
  {
    var e, thn, rest := x.c.ss[0].cond, x.c.ss[0].thn, x.c.ss[1..];
    hide CodeAt, EndsAt, FramesAt, SiteOk, Known, SameData, Tick, Ticks;
    var tt, end := IfLaid(bs, l, i, x.c.ss, x.c.env, ts[0], g);
    CondRuns(bs, l, i, e, tt, end, x.c, mem, g);
    var u := JoinTerm(E.EndingOf(thn), end, l);
    if Eval(e, x.c.env, x.c.store) != 0 {
      l', ts' := tt, [u] + ts;
      FramesPush(bs, D.Leave(rest, x.c.env), E.FallOf(x, x.c.ss[0]), x.c.k, x.falls, ts, u, g);
    } else {
      l', ts' := end, ts;
    }
    RestAfter(x.c, E.Step(x).x.c, mem, g);
  }

  lemma IfLaid(bs: seq<Block>, l: Label, i: nat, ss: seq<Stmt>, env: Env, t: Term, g: Site)
    returns (tt: Label, end: Label)
    requires CodeAt(bs, l, i, ss, env, t, g) && ss != [] && ss[0].If?
    ensures Known(env, g.vals) && EndsAt(bs, l, i, CondBr(Lower(ss[0].cond, env, g), tt, end))
    ensures CodeAt(bs, tt, 0, ss[0].thn, Child(env), JoinTerm(E.EndingOf(ss[0].thn), end, l), g)
      && CodeAt(bs, end, 0, ss[1..], env, t, g)
  {
    hide EndsAt, Known;
    tt, end :| EndsAt(bs, l, i, CondBr(Lower(ss[0].cond, env, g), tt, end))
      && CodeAt(bs, tt, 0, ss[0].thn, Child(env), JoinTerm(E.EndingOf(ss[0].thn), end, l), g)
        && CodeAt(bs, end, 0, ss[1..], env, t, g);
  }

  lemma IfElseLaid(bs: seq<Block>, l: Label, i: nat, ss: seq<Stmt>, env: Env, t: Term, g: Site)
    returns (tt: Label, tf: Label, end: Label)
    requires CodeAt(bs, l, i, ss, env, t, g) && ss != [] && ss[0].IfElse?
    ensures Known(env, g.vals) && EndsAt(bs, l, i, CondBr(Lower(ss[0].cond, env, g), tt, tf))
    ensures CodeAt(bs, tt, 0, ss[0].thn, Child(env), JoinTerm(E.EndingOf(ss[0].thn), end, end), g)
    ensures CodeAt(bs, tf, 0, ss[0].els, Child(env), JoinTerm(E.EndingOf(ss[0].els), end, end), g)
    ensures CodeAt(bs, end, 0, ss[1..], env, t, g)
  {
    hide EndsAt, Known;
    tt, tf, end :| EndsAt(bs, l, i, CondBr(Lower(ss[0].cond, env, g), tt, tf))
      && CodeAt(bs, tt, 0, ss[0].thn, Child(env), JoinTerm(E.EndingOf(ss[0].thn), end, end), g)
      && CodeAt(bs, tf, 0, ss[0].els, Child(env), JoinTerm(E.EndingOf(ss[0].els), end, end), g)
      && CodeAt(bs, end, 0, ss[1..], env, t, g);
  }

  /** A conditional branch goes where the condition says. */
  lemma CondRuns(bs: seq<Block>, l: Label, i: nat, e: Exp, yes: Label, no: Label, c: D.Config, mem: Memory, g: Site)
    requires Known(c.env, g.vals) && SameData(c, mem, g) && EndsAt(bs, l, i, CondBr(Lower(e, c.env, g), yes, no))
    ensures Ticks(bs, Running(l, i, mem), 1) == Running(if Eval(e, c.env, c.store) != 0 then yes else no, 0, mem)
  {
    LowerAgrees(e, c.env, c, mem, g);
    OneTick(bs, Running(l, i, mem));
  }

  lemma FollowIfElse(bs: seq<Block>, x: E.Tracked, l: Label, i: nat, mem: Memory, ts: seq<Term>, g: Site)
    returns (l': Label, ts': seq<Term>)
    requires SiteOk(g) && Related(bs, x, l, i, mem, ts, g) && x.c.ss != [] && x.c.ss[0].IfElse?
    ensures Followed(bs, x, Running(l, i, mem), 1, l', 0, mem, ts', g)
  {
    var e, rest := x.c.ss[0].cond, x.c.ss[1..];
    hide CodeAt, EndsAt, FramesAt, SiteOk, Known, SameData, Tick, Ticks;
    var tt, tf, end := IfElseLaid(bs, l, i, x.c.ss, x.c.env, ts[0], g);
    CondRuns(bs, l, i, e, tt, tf, x.c, mem, g);
    var branch := if Eval(e, x.c.env, x.c.store) != 0 then x.c.ss[0].thn else x.c.ss[0].els;
    var u := JoinTerm(E.EndingOf(branch), end, end);
    l', ts' := if Eval(e, x.c.env, x.c.store) != 0 then tt else tf, [u] + ts;
    FramesPush(bs, D.Leave(rest, x.c.env), E.FallOf(x, x.c.ss[0]), x.c.k, x.falls, ts, u, g);
    RestAfter(x.c, E.Step(x).x.c, mem, g);
  }

  lemma FollowFor(bs: seq<Block>, x: E.Tracked, l: Label, i: nat, mem: Memory, ts: seq<Term>, g: Site)
    returns (l': Label, ts': seq<Term>)
    requires SiteOk(g) && Related(bs, x, l, i, mem, ts, g) && x.c.ss != [] && x.c.ss[0].For?
    ensures Followed(bs, x, Running(l, i, mem), 1, l', 0, mem, ts', g)
  {
    var f := LoopOf(x.c);
    ForStep(x);
    var head, start, end := ForLaid(bs, l, i, x.c.ss, x.c.env, ts[0], g);
    hide CodeAt, EndsAt, HeadAt, FramesAt, SiteOk, SameData, Tick, Ticks, E.Step, D.Loop;
    var us';
    l', us', ts' := LoopRuns(bs, l, i, f, x.c, x.falls, head, start, end, mem, ts, g);
    OneTick(bs, Running(l, i, mem));
  }

  function LoopOf(c: D.Config): (f: D.Frame)
    requires c.ss != [] && c.ss[0].For?
    ensures f.Again?
  {
    D.Again(c.ss[0].test, c.ss[0].step, c.ss[0].body, c.ss[1..], c.env)
  }

  lemma ForStep(x: E.Tracked)
    requires x.Valid() && x.c.ss != [] && x.c.ss[0].For?
    ensures var c' := D.Loop(LoopOf(x.c), x.c);
      E.Step(x) == E.Going(E.Tracked(c', c'.ss, c'.env, if |c'.k| > |x.c.k| then [E.Joined] + x.falls else x.falls))
  {
  }

  lemma ForLaid(bs: seq<Block>, l: Label, i: nat, ss: seq<Stmt>, env: Env, t: Term, g: Site)
    returns (head: Label, start: Label, end: Label)
    requires CodeAt(bs, l, i, ss, env, t, g) && ss != [] && ss[0].For?
    ensures var enter := Enter(ss[0].test, env, start, end, g);
      EndsAt(bs, l, i, enter) && HeadAt(bs, head, ss[0].test, ss[0].step, env, enter, g)
    ensures CodeAt(bs, start, 0, ss[0].body, Child(env), Br(head), g) && CodeAt(bs, end, 0, ss[1..], env, t, g)
  {
    hide EndsAt, HeadAt, Known, Enter;
    head, start, end :|
      var enter := Enter(ss[0].test, env, start, end, g);
      EndsAt(bs, l, i, enter) && HeadAt(bs, head, ss[0].test, ss[0].step, env, enter, g)
      && CodeAt(bs, start, 0, ss[0].body, Child(env), Br(head), g) && CodeAt(bs, end, 0, ss[1..], env, t, g);
  }

  /** The step at a loop's head, if any. */
  lemma StepRuns(bs: seq<Block>, head: Label, f: D.Frame, enter: Term, c: D.Config, mem: Memory, g: Site)
    returns (mem': Memory)
    requires f.Again? && SiteOk(g) && Known(f.env, g.vals) && SameData(c, mem, g)
      && HeadAt(bs, head, f.test, f.step, f.env, enter, g)
    ensures var n := |StepOf(f.step, f.env, g)|;
      Ticks(bs, Running(head, 0, mem), n) == Running(head, n, mem') && EndsAt(bs, head, n, enter)
    ensures SameData(match f.step case None => c case Some(a) =>
      c.(store := D.Write(a.0, a.1, f.env, c.store)), mem', g)
  {
    mem' := mem;
    if f.step.Some? {
      var (x, e) := f.step.value;
      assert At(bs, head, 0, StoreOf(x, e, f.env, g));
      mem' := StoreRuns(bs, head, 0, x, e, f.env, c, mem, g);
    }
  }

  lemma BranchRuns(bs: seq<Block>, l: Label, i: nat, to: Label, mem: Memory, n: nat)
    requires EndsAt(bs, l, i, Br(to))
    ensures Ticks(bs, Running(l, i, mem), n + 1) == Ticks(bs, Running(to, 0, mem), n)
  {
    assert Tick(bs, Running(l, i, mem)) == Running(to, 0, mem);
  }

  /** The back edge: the branch to the loop head, the step, and the loop's branch. */
  lemma FollowBack(bs: seq<Block>, x: E.Tracked, l: Label, i: nat, mem: Memory, ts: seq<Term>, g: Site)
    returns (n: nat, l': Label, mem': Memory, ts': seq<Term>)
    requires SiteOk(g) && Related(bs, x, l, i, mem, ts, g) && x.c.ss == [] && x.c.k != [] && x.c.k[0].Again?
    ensures Followed(bs, x, Running(l, i, mem), n, l', 0, mem', ts', g)
  {
    BackStep(x) by { assert FrameAt(bs, x.c.k[0], x.falls[0], ts[0], ts[1], g); }
    hide E.Step, D.Loop, Stepped, Ticks, SiteOk;
    n, l', mem', ts' := BackRuns(bs, x, l, i, mem, ts, g);
  }

  lemma BackRuns(bs: seq<Block>, x: E.Tracked, l: Label, i: nat, mem: Memory, ts: seq<Term>, g: Site)
    returns (n: nat, l': Label, mem': Memory, ts': seq<Term>)
    requires SiteOk(g) && Related(bs, x, l, i, mem, ts, g) && x.c.ss == [] && x.c.k != [] && x.c.k[0].Again?
    ensures n > 0 && Ticks(bs, Running(l, i, mem), n) == Running(l', 0, mem')
    ensures Related(bs, Looped(x), l', 0, mem', ts', g)
  {
    FramesPop(bs, x.c.k, x.falls, ts, g);
    var f, head := x.c.k[0], ts[0].to;
    assert EndsAt(bs, l, i, Br(head));
    var start, end := AgainLaid(bs, f, x.falls[0], ts[0], ts[1], g);
    hide CodeAt, EndsAt, HeadAt, FramesAt, FrameAt, SiteOk, Known, SameData, Tick, Ticks, D.Loop;
    var n0 := |StepOf(f.step, f.env, g)|;
    var c0, c1 := x.c.(k := x.c.k[1..]), Stepped(x.c);
    RestAfter(x.c, c0, mem, g);
    mem' := StepRuns(bs, head, f, Enter(f.test, f.env, start, end, g), c0, mem, g);
    hide StepOf, Enter;
    var us';
    l', us', ts' := LoopRuns(bs, head, n0, f, c1, x.falls[1..], head, start, end, mem', ts[1..], g);
    OneTick(bs, Running(head, n0, mem'));
    TicksAdd(bs, Running(head, 0, mem), n0, 1);
    BranchRuns(bs, l, i, head, mem, n0 + 1);
    n := n0 + 2;
  }

  /** Back from the end of a loop's body. */
  function Looped(x: E.Tracked): (y: E.Tracked)
    requires x.Valid() && x.c.k != [] && x.c.k[0].Again?
  {
    var c1, us := Stepped(x.c), x.falls[1..];
    var c' := D.Loop(x.c.k[0], c1);
    E.Tracked(c', c'.ss, c'.env, if |c'.k| > |c1.k| then [E.Joined] + us else us)
  }

  /** A loop's frame taken off and its step done. */
  function Stepped(c: D.Config): D.Config
    requires c.k != [] && c.k[0].Again?
  {
    var c0 := c.(k := c.k[1..]);
    match c.k[0].step
    case None => c0
    case Some(a) => c0.(store := D.Write(a.0, a.1, c.k[0].env, c.store))
  }

  lemma BackStep(x: E.Tracked)
    requires x.Valid() && x.c.ss == [] && x.c.k != [] && x.c.k[0].Again? && x.falls[0].Joined?
    ensures E.Step(x) == E.Going(Looped(x))
  {
    assert [E.Joined] + x.falls[1..] == x.falls;
  }

  lemma AgainLaid(bs: seq<Block>, f: D.Frame, u: E.Fall, t: Term, t': Term, g: Site) returns (start: Label, end: Label)
    requires FrameAt(bs, f, u, t, t', g) && f.Again?
    ensures HeadAt(bs, t.to, f.test, f.step, f.env, Enter(f.test, f.env, start, end, g), g) && Known(f.env, g.vals)
    ensures CodeAt(bs, start, 0, f.body, Child(f.env), t, g) && CodeAt(bs, end, 0, f.rest, f.env, t', g)
  {
    hide HeadAt, Enter;
    start, end :|
      HeadAt(bs, t.to, f.test, f.step, f.env, Enter(f.test, f.env, start, end, g), g)
      && CodeAt(bs, start, 0, f.body, Child(f.env), t, g) && CodeAt(bs, end, 0, f.rest, f.env, t', g);
  }

  // ----- runs up to the next suspension -----

  /** Whatever a run over the source reaches, the machine reaches. */
  lemma {:induction false} RunForward(bs: seq<Block>, x: E.Tracked, d: nat, l: Label, i: nat, mem: Memory,
          ts: seq<Term>, g: Site)
    returns (n: nat, mem': Memory, ts': seq<Term>)
    requires SiteOk(g) && Related(bs, x, l, i, mem, ts, g) && E.Run(x, d).Answers()
    ensures Ticks(bs, Running(l, i, mem), n) == Returned(E.Run(x, d).Yielded?, mem')
    ensures E.Run(x, d).Yielded? ==> Suspended(bs, E.Run(x, d).x, mem', ts', g)
    decreases d
  {
    hide FramesAt, SameData, CodeAt, SiteOk, E.Step, Tick, Ticks;
    var m, l1, i1, mem1, ts1 := Follow(bs, x, l, i, mem, ts, g);
    if E.Step(x).Going? {
      n, mem', ts' := RunForward(bs, E.Step(x).x, d - 1, l1, i1, mem1, ts1, g);
      TicksAdd(bs, Running(l, i, mem), m, n);
      n := m + n;
    } else {
      n, mem', ts' := m, mem1, ts1;
    }
  }

  /** If the machine returns, the run over the source yields or ends. */
  lemma {:induction false} RunBackward(bs: seq<Block>, x: E.Tracked, n: nat, l: Label, i: nat, mem: Memory,
          ts: seq<Term>, g: Site)
    returns (d: nat)
    requires SiteOk(g) && Related(bs, x, l, i, mem, ts, g)
    requires Ticks(bs, Running(l, i, mem), n).Returned?
    ensures E.Run(x, d).Answers()
    decreases n, |x.c.ss|
  {
    hide FramesAt, SameData, CodeAt, SiteOk, E.Step, Tick, Ticks;
    var m, l1, i1, mem1, ts1 := Follow(bs, x, l, i, mem, ts, g);
    if E.Step(x).Going? {
      OnceReturned(bs, Running(l, i, mem), n, m);
      TicksAdd(bs, Running(l, i, mem), m, n - m);
      var d1 := RunBackward(bs, E.Step(x).x, n - m, l1, i1, mem1, ts1, g);
      d := d1 + 1;
    } else {
      d := 1;
      assert E.Run(x, 1) == E.Step(x);
      if E.Step(x).Hung? { StuckForever(bs, Running(l, i, mem), m, n); }
    }
  }

  lemma StuckForever(bs: seq<Block>, x: Machine, m: nat, n: nat)
    requires Ticks(bs, x, m) == Stuck
    ensures !Ticks(bs, x, n).Returned?
  {
    if Ticks(bs, x, n).Returned? {
      OnceReturned(bs, x, n, m);
      TicksAdd(bs, x, m, n - m);
      StuckStays(bs, n - m);
    }
  }

  /** A machine that has returned after `n` ticks is neither running nor stuck after `m` unless `m` is less. */
  lemma OnceReturned(bs: seq<Block>, x: Machine, n: nat, m: nat)
    requires Ticks(bs, x, n).Returned? && !Ticks(bs, x, m).Returned?
    ensures m <= n
  {
    if n < m {
      var r := Ticks(bs, x, n);
      TicksAdd(bs, x, n, m - n);
      ReturnedStays(bs, r.more, r.mem, m - n);
    }
  }

  lemma {:induction false} StuckStays(bs: seq<Block>, n: nat)
    ensures Ticks(bs, Stuck, n) == Stuck
  {
    if n > 0 { StuckStays(bs, n - 1); }
  }

  /** Between calls: the stored resume address is where the rest of the program is laid out. */
  ghost predicate Suspended(bs: seq<Block>, x: E.Tracked, mem: Memory, ts: seq<Term>, g: Site) {
    Read(mem, g.resume) >= 0 && Related(bs, x, Read(mem, g.resume), 0, mem, ts, g)
  }

  predicate Dispatches(bs: seq<Block>, g: Site) {
    |bs| > 0 && bs[0] == Block([], IndirectBr(g.resume))
  }

  /** One call of StepNext runs to the next yield or to the end, and no further. */
  lemma StepNextFollows(bs: seq<Block>, x: E.Tracked, d: nat, mem: Memory, ts: seq<Term>, g: Site)
    returns (mem': Memory, ts': seq<Term>)
    requires SiteOk(g) && Dispatches(bs, g) && Suspended(bs, x, mem, ts, g) && E.Run(x, d).Answers()
    ensures StepNext(bs, mem, E.Run(x, d).Yielded?, mem')
    ensures E.Run(x, d).Yielded? ==> Suspended(bs, E.Run(x, d).x, mem', ts', g)
  {
    var n;
    n, mem', ts' := RunForward(bs, x, d, Read(mem, g.resume), 0, mem, ts, g);
    assert Ticks(bs, Running(0, 0, mem), n + 1) == Returned(E.Run(x, d).Yielded?, mem');
  }

  lemma StepNextAnswers(bs: seq<Block>, x: E.Tracked, mem: Memory, ts: seq<Term>, g: Site, more: bool, mem': Memory)
    returns (d: nat)
    requires SiteOk(g) && Dispatches(bs, g) && Suspended(bs, x, mem, ts, g) && StepNext(bs, mem, more, mem')
    ensures E.Run(x, d).Answers()
  {
    var n: nat :| Ticks(bs, Running(0, 0, mem), n) == Returned(more, mem');
    d := RunBackward(bs, x, n - 1, Read(mem, g.resume), 0, mem, ts, g);
  }

  lemma StepNextOnce(bs: seq<Block>, mem: Memory, more: bool, mem1: Memory, more2: bool, mem2: Memory)
    requires StepNext(bs, mem, more, mem1) && StepNext(bs, mem, more2, mem2)
    ensures more == more2 && mem1 == mem2
  {
    var m := Running(0, 0, mem);
    var a: nat :| Ticks(bs, m, a) == Returned(more, mem1);
    var b: nat :| Ticks(bs, m, b) == Returned(more2, mem2);
    if a <= b {
      TicksAdd(bs, m, a, b - a);
      ReturnedStays(bs, more, mem1, b - a);
    } else {
      TicksAdd(bs, m, b, a - b);
      ReturnedStays(bs, more2, mem2, a - b);
    }
  }

  // ----- what a caller observes -----

  /** A yielded value with the value of every local and parameter at that moment. */
  datatype Observation = Observation(value: int, locals: map<NodeId, int>)

  function SeenDirect(c: D.Config, ids: set<NodeId>): Observation {
    Observation(c.current, map id | id in ids :: Read(c.store, id))
  }

  function SeenMachine(mem: Memory, g: Site): Observation {
    Observation(GetCurrent(mem, g), map id | id in g.vals.Keys :: Read(mem, g.vals[id]))
  }

  /** Direct execution yields the observations `tr` in order, and then ends if `ended`. */
  ghost predicate DirectTrace(c: D.Config, ids: set<NodeId>, tr: seq<Observation>, ended: bool)
    decreases |tr|
  {
    if tr == [] then ended ==> exists d: nat :: D.Run(c, d).Ended?
    else exists d: nat :: D.Run(c, d).Yielded? && SeenDirect(D.Run(c, d).c, ids) == tr[0]
           && DirectTrace(D.Run(c, d).c, ids, tr[1..], ended)
  }

  /** The same over the source as the emitted code takes it. */
  ghost predicate EmittedTrace(x: E.Tracked, ids: set<NodeId>, tr: seq<Observation>, ended: bool)
    requires x.Valid()
    decreases |tr|
  {
    if tr == [] then ended ==> exists d: nat :: E.Run(x, d).Ended?
    else exists d: nat :: E.Run(x, d).Yielded? && SeenDirect(E.Run(x, d).x.c, ids) == tr[0]
           && EmittedTrace(E.Run(x, d).x, ids, tr[1..], ended)
  }

  /** StepNext returns true with GetCurrent and the context showing `tr` in order,
      and then false if `ended`. */
  ghost predicate MachineTrace(bs: seq<Block>, mem: Memory, g: Site, tr: seq<Observation>, ended: bool)
    decreases |tr|
  {
    if tr == [] then ended ==> exists mem' :: StepNext(bs, mem, false, mem')
    else exists mem' :: StepNext(bs, mem, true, mem') && SeenMachine(mem', g) == tr[0]
           && MachineTrace(bs, mem', g, tr[1..], ended)
  }

  lemma SeenSame(c: D.Config, mem: Memory, g: Site)
    requires SameData(c, mem, g)
    ensures SeenMachine(mem, g) == SeenDirect(c, g.vals.Keys)
  {
  }

  lemma {:induction false} TracesAgree(bs: seq<Block>, x: E.Tracked, mem: Memory, ts: seq<Term>, g: Site,
          tr: seq<Observation>, ended: bool)
    requires SiteOk(g) && Dispatches(bs, g) && Suspended(bs, x, mem, ts, g)
    ensures EmittedTrace(x, g.vals.Keys, tr, ended) <==> MachineTrace(bs, mem, g, tr, ended)
    decreases |tr|
  {
    if EmittedTrace(x, g.vals.Keys, tr, ended) { SourceToMachine(bs, x, mem, ts, g, tr, ended); }
    if MachineTrace(bs, mem, g, tr, ended) { MachineToSource(bs, x, mem, ts, g, tr, ended); }
  }

  lemma {:induction false} SourceToMachine(bs: seq<Block>, x: E.Tracked, mem: Memory, ts: seq<Term>, g: Site,
          tr: seq<Observation>, ended: bool)
    requires SiteOk(g) && Dispatches(bs, g) && Suspended(bs, x, mem, ts, g)
    requires EmittedTrace(x, g.vals.Keys, tr, ended)
    ensures MachineTrace(bs, mem, g, tr, ended)
    decreases |tr|, 0
  {
    hide FramesAt, SameData, CodeAt, SiteOk, E.Step;
    if tr == [] {
      if ended {
        var d: nat :| E.Run(x, d).Ended?;
        var mem', _ := StepNextFollows(bs, x, d, mem, ts, g);
      }
    } else {
      var d: nat :| E.Run(x, d).Yielded? && SeenDirect(E.Run(x, d).x.c, g.vals.Keys) == tr[0]
        && EmittedTrace(E.Run(x, d).x, g.vals.Keys, tr[1..], ended);
      var mem', ts' := StepNextFollows(bs, x, d, mem, ts, g);
      SeenSame(E.Run(x, d).x.c, mem', g);
      TracesAgree(bs, E.Run(x, d).x, mem', ts', g, tr[1..], ended);
    }
  }

  lemma {:induction false} MachineToSource(bs: seq<Block>, x: E.Tracked, mem: Memory, ts: seq<Term>, g: Site,
          tr: seq<Observation>, ended: bool)
    requires SiteOk(g) && Dispatches(bs, g) && Suspended(bs, x, mem, ts, g)
    requires MachineTrace(bs, mem, g, tr, ended)
    ensures EmittedTrace(x, g.vals.Keys, tr, ended)
    decreases |tr|, 0
  {
    hide FramesAt, SameData, CodeAt, SiteOk, E.Step;
    if tr == [] {
      if ended {
        var mem' :| StepNext(bs, mem, false, mem');
        var d := StepNextAnswers(bs, x, mem, ts, g, false, mem');
        var mem1, _ := StepNextFollows(bs, x, d, mem, ts, g);
        StepNextOnce(bs, mem, false, mem', E.Run(x, d).Yielded?, mem1);
      }
    } else {
      var mem' :| StepNext(bs, mem, true, mem') && SeenMachine(mem', g) == tr[0]
        && MachineTrace(bs, mem', g, tr[1..], ended);
      var d := StepNextAnswers(bs, x, mem, ts, g, true, mem');
      var mem1, ts1 := StepNextFollows(bs, x, d, mem, ts, g);
      StepNextOnce(bs, mem, true, mem', E.Run(x, d).Yielded?, mem1);
      SeenSame(E.Run(x, d).x.c, mem', g);
      TracesAgree(bs, E.Run(x, d).x, mem', ts1, g, tr[1..], ended);
    }
  }

  // ----- the initial state -----

  lemma SiteIsOk(p: Program)
    ensures SiteOk(SiteOf(p))
  {
    NodesSeparate(p);
  }

  lemma {:induction false} ParamsKnown(ps: seq<Param>, env: Env, g: Site)
    requires Known(env, g.vals) && env.Scope? && forall k :: 0 <= k < |ps| ==> ps[k].id in g.vals
    ensures Known(ParamScope(ps, env), g.vals)
  {
    if ps != [] { ParamsKnown(ps[1..], AddVar(env, ps[0].name, ps[0].id), g); }
  }

  lemma {:induction false} DeclsSlotted(ss: seq<Stmt>, vals: map<NodeId, Path>)
    requires Fragment(ss) && forall d :: d in Decls(ss) ==> d.node in vals
    ensures Slotted(ss, vals)
    decreases ss
  {
    forall k | 0 <= k < |ss|
      ensures match ss[k]
        case Define(id, _, _) => id in vals
        case DefAssign(id, _, _, _) => id in vals
        case If(_, thn) => Slotted(thn, vals)
        case IfElse(_, thn, els) => Slotted(thn, vals) && Slotted(els, vals)
        case For(_, _, body) => Slotted(body, vals)
        case _ => true
    {
      DeclsOfMember(ss, k);
      match ss[k]
      case Define(id, _, tp) => assert Decl(id, tp) in DeclsOf(ss[k]);
      case DefAssign(id, _, tp, _) => assert Decl(id, tp) in DeclsOf(ss[k]);
      case If(_, thn) => DeclsSlotted(thn, vals);
      case IfElse(_, thn, els) => DeclsSlotted(thn, vals); NoDefsSlotted(els, vals);
      case For(_, _, body) => DeclsSlotted(body, vals);
      case _ =>
    }
  }

  lemma {:induction false} DeclsOfMember(ss: seq<Stmt>, k: nat)
    requires k < |ss|
    ensures forall d :: d in DeclsOf(ss[k]) ==> d in Decls(ss)
  {
    if k > 0 { DeclsOfMember(ss[1..], k - 1); }
  }

  lemma {:induction false} NoDefsSlotted(ss: seq<Stmt>, vals: map<NodeId, Path>)
    requires NoDefs(ss)
    ensures Slotted(ss, vals)
    decreases ss
  {
    forall k | 0 <= k < |ss|
      ensures match ss[k]
        case Define(id, _, _) => id in vals
        case DefAssign(id, _, _, _) => id in vals
        case If(_, thn) => Slotted(thn, vals)
        case IfElse(_, thn, els) => Slotted(thn, vals) && Slotted(els, vals)
        case For(_, _, body) => Slotted(body, vals)
        case _ => true
    {
      match ss[k]
      case If(_, thn) => NoDefsSlotted(thn, vals);
      case IfElse(_, thn, els) => NoDefsSlotted(thn, vals); NoDefsSlotted(els, vals);
      case For(_, _, body) => NoDefsSlotted(body, vals);
      case _ =>
    }
  }

  lemma LastParam(ps: seq<Param>, first: nat)
    requires ps != []
    ensures var k, slots := |ps| - 1, ParamSlots(ps, first);
      && slots[..k] == ParamSlots(ps[..k], first) && slots[k] == Slot(ps[k].id, [first + k])
      && Table(slots) == Table(ParamSlots(ps[..k], first))[ps[k].id := [first + k]]
  {
    assert ParamSlots(ps, first)[..|ps| - 1] == ParamSlots(ps[..|ps| - 1], first);
  }

  /** The parameters' fields follow one another. */
  lemma {:induction false} ParamPaths(ps: seq<Param>, first: nat, args: seq<int>)
    requires |ps| == |args|
    ensures var vals, mem := Table(ParamSlots(ps, first)), StoreArgs(ParamSlots(ps, first), args, map[]);
      && (forall id :: id in vals ==> |vals[id]| == 1 && first <= vals[id][0] < first + |ps|)
      && (forall q :: q in mem ==> |q| == 1 && first <= q[0] < first + |ps|)
      && (forall id :: id !in vals ==> Read(D.ArgStore(ps, args), id) == 0)
  {
    if ps != [] {
      LastParam(ps, first);
      ParamPaths(ps[..|ps| - 1], first, args[..|ps| - 1]);
      hide ParamSlots, Table;
    }
  }

  /** The stored arguments are what the parameters' cells hold. */
  lemma {:induction false} ArgsAgree(ps: seq<Param>, first: nat, args: seq<int>)
    requires |ps| == |args|
    ensures var mem, vals := StoreArgs(ParamSlots(ps, first), args, map[]), Table(ParamSlots(ps, first));
      forall id :: id in vals ==> Read(mem, vals[id]) == Read(D.ArgStore(ps, args), id)
  {
    if ps != [] {
      var k := |ps| - 1;
      LastParam(ps, first);
      ParamPaths(ps[..k], first, args[..k]);
      ArgsAgree(ps[..k], first, args[..k]);
      hide ParamSlots, Table;
    }
  }

  lemma StartsSame(p: Program, args: seq<int>)
    requires |args| == |p.params|
    ensures SameData(D.Start(p, args), Setup(p, args), SiteOf(p))
  {
    var f, g, cs := FrameOf(p), SiteOf(p), BuildCtx(p.body).1;
    var a, b := Slots(cs, []), ParamSlots(p.params, |cs|);
    ArgsAgree(p.params, |cs|, args);
    ParamPaths(p.params, |cs|, args);
    TableConcat(a, b);
    BodyBelowParams(p);
    var mem := StoreArgs(b, args, map[]);
    forall id | id in g.vals ensures Read(Setup(p, args), g.vals[id]) == Read(D.ArgStore(p.params, args), id) {
      if id !in Table(b) {
        assert g.vals[id] == Table(a)[id];
        assert g.vals[id] !in mem && g.vals[id] != g.resume;
      }
    }
  }

  lemma BodyBelowParams(p: Program)
    ensures FrameOf(p).resume == |BuildCtx(p.body).1| + |p.params|
    ensures var cs := BuildCtx(p.body).1;
      forall id :: id in Table(Slots(cs, [])) ==> InBody(Table(Slots(cs, []))[id], |cs|)
  {
    var cs := BuildCtx(p.body).1;
    AddChildrenNumbered(p.body, HEADER_TYPES, HEADER_CTX);
    HeaderHasNoSlots(cs, []);
    SlotsDisjoint(cs[3..], [], 3);
    TableSeparate(Slots(cs, []), |cs|);
  }

  lemma ParamsSlotted(p: Program)
    ensures forall k :: 0 <= k < |p.params| ==> p.params[k].id in SiteOf(p).vals
    ensures forall d :: d in Decls(p.body) ==> d.node in SiteOf(p).vals
  {
    var ds := ParamDecls(p.params);
    AllSlotted(p);
    forall k | 0 <= k < |p.params| ensures p.params[k].id in SiteOf(p).vals {
      assert ds[k] == Decl(p.params[k].id, p.params[k].tp);
      assert ds[k] in Decls(p.body) + ds;
    }
  }

  lemma CompiledCode(p: Program, outer: Option<Label>)
    requires Fragment(p.body)
    ensures var bs, g := Compile(p, outer), SiteOf(p);
      Dispatches(bs, g) && CodeAt(bs, ENTRY, 0, p.body, ParamScope(p.params, Child(Root)), Return(false), g)
  {
    var bs, g, env := Compile(p, outer), SiteOf(p), ParamScope(p.params, Child(Root));
    var st := State([FRESH, FRESH], ENTRY, env);
    var r := EmitStmts(st, outer, p.body, g);
    StmtsGrow(st, outer, p.body, g);
    assert r.blocks[0] == st.blocks[0] == FRESH;
    ParamsSlotted(p);
    DeclsSlotted(p.body, g.vals);
    ParamsKnown(p.params, Child(Root), g);
    Laid(bs, st, outer, p.body, Return(false), g);
  }

  /** At the first call the machine is suspended where the source starts. */
  lemma StartsSuspended(p: Program, args: seq<int>, outer: Option<Label>)
    requires Fragment(p.body) && |args| == |p.params|
    ensures var bs, g := Compile(p, outer), SiteOf(p);
      SiteOk(g) && Dispatches(bs, g) && Suspended(bs, E.Start(p, args), Setup(p, args), [Return(false)], g)
  {
    var bs, g, x, mem := Compile(p, outer), SiteOf(p), E.Start(p, args), Setup(p, args);
    CompiledCode(p, outer);
    SiteIsOk(p);
    StartsSame(p, args);
    assert FramesAt(bs, x.c.k, x.falls, [Return(false)], g);
    assert Read(mem, g.resume) == ENTRY;
  }

  /** For every program, all arguments, and every enclosing block: alternating StepNext and
      GetCurrent shows exactly what the source shows as the emitted code takes it, and
      StepNext first answers false exactly when that ends. */
  lemma LoweringMeans(p: Program, args: seq<int>, outer: Option<Label>, tr: seq<Observation>, ended: bool)
    requires Fragment(p.body) && |args| == |p.params|
    ensures EmittedTrace(E.Start(p, args), SiteOf(p).vals.Keys, tr, ended)
       <==> MachineTrace(Compile(p, outer), Setup(p, args), SiteOf(p), tr, ended)
  {
    StartsSuspended(p, args, outer);
    TracesAgree(Compile(p, outer), E.Start(p, args), Setup(p, args), [Return(false)], SiteOf(p), tr, ended);
  }
}
