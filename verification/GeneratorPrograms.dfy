/** What the emitted code of some families of generators shows, in plain arithmetic. */
module GeneratorPrograms {
  import opened Wrappers
  import opened GeneratorSyntax
  import opened GeneratorLayout
  import opened GeneratorLowering
  import opened GeneratorCorrect
  import opened GeneratorSimulation
  import opened GeneratorExact
  import D = GeneratorDirect
  import E = GeneratorEmitted

  function Values(tr: seq<Observation>): seq<int> { seq(|tr|, k requires 0 <= k < |tr| => tr[k].value) }

  /** StepNext answers true and GetCurrent shows `values` in order, and then StepNext answers
      false; whatever else is observed, these are the values. */
  ghost predicate Shows(p: Program, args: seq<int>, outer: Option<Label>, values: seq<int>)
    requires |args| == |p.params|
  {
    var bs, mem, g := Compile(p, outer), Setup(p, args), SiteOf(p);
    && (exists tr :: MachineTrace(bs, mem, g, tr, true))
    && (forall tr :: MachineTrace(bs, mem, g, tr, true) ==> Values(tr) == values)
  }

  /** A generator shows one sequence of observations before it ends. */
  lemma {:induction false} TraceOnce(bs: seq<Block>, mem: Memory, g: Site, a: seq<Observation>, b: seq<Observation>)
    requires MachineTrace(bs, mem, g, a, true) && MachineTrace(bs, mem, g, b, true)
    ensures a == b
    decreases |a|
  {
    if a != [] && b != [] {
      var m :| StepNext(bs, mem, true, m) && SeenMachine(m, g) == a[0] && MachineTrace(bs, m, g, a[1..], true);
      var m' :| StepNext(bs, mem, true, m') && SeenMachine(m', g) == b[0] && MachineTrace(bs, m', g, b[1..], true);
      StepNextOnce(bs, mem, true, m, true, m');
      TraceOnce(bs, m, g, a[1..], b[1..]);
      assert a == [a[0]] + a[1..] && b == [b[0]] + b[1..];
    } else if a != [] {
      var m :| StepNext(bs, mem, true, m);
      var m' :| StepNext(bs, mem, false, m');
      StepNextOnce(bs, mem, true, m, false, m');
    } else if b != [] {
      var m :| StepNext(bs, mem, true, m);
      var m' :| StepNext(bs, mem, false, m');
      StepNextOnce(bs, mem, true, m, false, m');
    }
  }

  /** Direct execution from `c` yields at these states and then ends. */
  ghost predicate Passes(c: D.Config, stops: seq<D.Config>)
    decreases |stops|
  {
    if stops == [] then exists d: nat :: D.Run(c, d).Ended?
    else (exists d: nat :: D.Run(c, d) == D.Yielded(stops[0])) && Passes(stops[0], stops[1..])
  }

  function Seen(stops: seq<D.Config>, ids: set<NodeId>): seq<Observation> {
    seq(|stops|, k requires 0 <= k < |stops| => SeenDirect(stops[k], ids))
  }

  lemma {:induction false} PassesTraced(c: D.Config, stops: seq<D.Config>, ids: set<NodeId>)
    requires Passes(c, stops)
    ensures DirectTrace(c, ids, Seen(stops, ids), true)
    decreases |stops|
  {
    if stops != [] {
      PassesTraced(stops[0], stops[1..], ids);
      assert Seen(stops, ids)[1..] == Seen(stops[1..], ids);
    }
  }

  /** What a tame program shows is what direct execution yields. */
  lemma ShowsStops(p: Program, args: seq<int>, outer: Option<Label>, stops: seq<D.Config>, values: seq<int>)
    requires Fragment(p.body) && Tame(p.body, true) && |args| == |p.params|
    requires Passes(D.Start(p, args), stops) && |values| == |stops|
    requires forall k :: 0 <= k < |stops| ==> stops[k].current == values[k]
    ensures Shows(p, args, outer, values)
  {
    hide Fragment, Tame, Passes, MachineTrace, DirectTrace, Compile, Setup, SiteOf, D.Start;
    var bs, mem, g := Compile(p, outer), Setup(p, args), SiteOf(p);
    var tr := Seen(stops, g.vals.Keys);
    PassesTraced(D.Start(p, args), stops, g.vals.Keys);
    LoweringKeepsMeaning(p, args, outer);
    assert MachineTrace(bs, mem, g, tr, true);
    forall tr' | MachineTrace(bs, mem, g, tr', true) ensures Values(tr') == values {
      TraceOnce(bs, mem, g, tr, tr');
      assert Values(tr) == values;
    }
  }

  // ----- operators and parameters -----

  const A_B := [Param(0, "a", IntType), Param(1, "b", IntType)]

  lemma TwoParams(a: int, b: int)
    ensures ParamScope(A_B, Child(Root)) == Scope(map["a" := 0, "b" := 1], Root)
    ensures D.ArgStore(A_B, [a, b]) == map[0 := a, 1 := b]
  {
    assert A_B[1..] == [A_B[1]] && A_B[1..][1..] == [];
    assert AddVar(Child(Root), "a", 0) == Scope(map["a" := 0], Root);
    assert A_B[..1] == [A_B[0]] && A_B[..1][..0] == [] && [a, b][..1] == [a] && [a][..0] == [];
    assert D.ArgStore([A_B[0]], [a]) == map[0 := a];
  }

  /** `yield a op b` */
  function YieldOf(op: BinOp): Program { Program(A_B, [Yield(Some(Bin(op, Ref("a"), Ref("b"))))], IntType) }

  lemma YieldShows(op: BinOp, a: int, b: int, outer: Option<Label>)
    ensures Shows(YieldOf(op), [a, b], outer, [Apply(op, a, b)])
  {
    var p, env, store := YieldOf(op), Scope(map["a" := 0, "b" := 1], Root), map[0 := a, 1 := b];
    TwoParams(a, b);
    var c, stop := D.Start(p, [a, b]), D.Config([], env, [], store, Apply(op, a, b));
    assert c == D.Config(p.body, env, [], store, 0) && p.body[1..] == [];
    assert Eval(p.body[0].out.value, env, store) == Apply(op, a, b);
    assert D.Run(c, 1) == D.Step(c) == D.Yielded(stop);
    assert D.Run(stop, 1) == D.Step(stop) == D.Ended(stop);
    assert [stop][1..] == [] && Passes(stop, []);
    ShowsStops(p, [a, b], outer, [stop], [Apply(op, a, b)]);
  }

  /** `yield a + b`, `yield a - b`, `yield a * b`, `yield a < b` and `yield a == b` each show
      that, whatever the arguments. */
  lemma OperatorsShow(a: int, b: int, outer: Option<Label>)
    ensures Shows(YieldOf(Plus), [a, b], outer, [a + b])
    ensures Shows(YieldOf(Minus), [a, b], outer, [a - b])
    ensures Shows(YieldOf(Times), [a, b], outer, [a * b])
    ensures Shows(YieldOf(Less), [a, b], outer, [if a < b then 1 else 0])
    ensures Shows(YieldOf(Equal), [a, b], outer, [if a == b then 1 else 0])
  {
    hide Shows;
    YieldShows(Plus, a, b, outer);
    YieldShows(Minus, a, b, outer);
    YieldShows(Times, a, b, outer);
    YieldShows(Less, a, b, outer);
    YieldShows(Equal, a, b, outer);
  }
  // ----- loops -----

  /** `var i int; var s int; for ; i < n; i = i + 1 { s = s + i; yield s }` */
  const SUMS := Program([Param(0, "n", IntType)],
    [Define(1, "i", IntType), Define(2, "s", IntType),
     For(Some(Bin(Less, Ref("i"), Ref("n"))), Some(("i", Bin(Plus, Ref("i"), Lit(1)))),
         [Assign("s", Bin(Plus, Ref("s"), Ref("i"))), Yield(Some(Ref("s")))])], IntType)

  const SUM_SCOPE := Scope(map["n" := 0, "i" := 1, "s" := 2], Root)

  function SumLoop(): D.Frame {
    D.Again(Some(Bin(Less, Ref("i"), Ref("n"))), Some(("i", Bin(Plus, Ref("i"), Lit(1)))), SUMS.body[2].body, [],
      SUM_SCOPE)
  }

  function Triangle(k: nat): nat { k * (k + 1) / 2 }

  lemma TriangleNext(k: nat)
    ensures Triangle(k + 1) == Triangle(k) + k + 1
  {
    assert (k + 1) * (k + 2) == k * (k + 1) + 2 * (k + 1);
  }

  lemma SumScope(store: Store)
    ensures D.Holds(SUMS.body[2].test, SUM_SCOPE, store) <==> Read(store, 1) < Read(store, 0)
    ensures D.Write("i", Bin(Plus, Ref("i"), Lit(1)), SUM_SCOPE, store) == store[1 := Read(store, 1) + 1]
    ensures D.Write("s", Bin(Plus, Ref("s"), Ref("i")), Child(SUM_SCOPE), store)
      == store[2 := Read(store, 2) + Read(store, 1)]
    ensures Eval(Ref("s"), Child(SUM_SCOPE), store) == Read(store, 2)
  {
    assert Lookup(SUM_SCOPE, "i") == Lookup(Child(SUM_SCOPE), "i") == Some(1);
    assert Lookup(SUM_SCOPE, "s") == Lookup(Child(SUM_SCOPE), "s") == Some(2);
    assert Lookup(SUM_SCOPE, "n") == Some(0);
    var inner := Child(SUM_SCOPE);
    assert Eval(Ref("i"), SUM_SCOPE, store) == Read(store, 1) && Eval(Ref("n"), SUM_SCOPE, store) == Read(store, 0);
    assert Eval(Lit(1), SUM_SCOPE, store) == 1;
    assert Eval(Ref("i"), inner, store) == Read(store, 1) && Eval(Ref("s"), inner, store) == Read(store, 2);
    assert Eval(Bin(Plus, Ref("s"), Ref("i")), inner, store) == Read(store, 2) + Read(store, 1);
    assert Eval(Bin(Less, Ref("i"), Ref("n")), SUM_SCOPE, store) == if Read(store, 1) < Read(store, 0) then 1 else 0;
  }

  /** Before pass `k` of the loop body: the test has been passed. */
  predicate AtPass(c: D.Config, n: int, k: nat) {
    && c == D.Config(SUMS.body[2].body, Child(SUM_SCOPE), [SumLoop()], c.store, c.current)
    && Read(c.store, 0) == n && Read(c.store, 1) == k && Read(c.store, 2) == Triangle(k) - k
  }

  /** Suspended in pass `k`. */
  predicate AtStop(c: D.Config, n: int, k: nat) {
    && c == D.Config([], Child(SUM_SCOPE), [SumLoop()], c.store, Triangle(k))
    && Read(c.store, 0) == n && Read(c.store, 1) == k && Read(c.store, 2) == Triangle(k)
  }

  lemma PassStops(c: D.Config, n: int, k: nat) returns (stop: D.Config)
    requires AtPass(c, n, k)
    ensures AtStop(stop, n, k) && D.Run(c, 2) == D.Yielded(stop)
  {
    var body := SUMS.body[2].body;
    SumScope(c.store);
    SumScope(c.store[2 := Triangle(k)]);
    hide Eval, D.Write, D.Holds;
    assert body[1..] == [body[1]] && body[1..][1..] == [];
    var store := c.store[2 := Triangle(k)];
    var c1 := D.Config(body[1..], c.env, c.k, store, c.current);
    assert D.Step(c) == D.Going(c1);
    stop := D.Config([], c.env, c.k, store, Triangle(k));
    assert D.Step(c1) == D.Yielded(stop) == D.Run(c1, 1);
  }

  lemma StopGoesOn(c: D.Config, n: int, k: nat) returns (c': D.Config)
    requires AtStop(c, n, k)
    ensures k + 1 < n ==> AtPass(c', n, k + 1) && D.Step(c) == D.Going(c')
    ensures k + 1 >= n ==> D.Run(c, 2).Ended?
  {
    TriangleNext(k);
    var store := c.store[1 := k + 1];
    SumScope(c.store);
    SumScope(store);
    hide Eval, D.Write, D.Holds;
    assert c.k[1..] == [];
    if k + 1 < n {
      c' := D.Config(SUMS.body[2].body, Child(SUM_SCOPE), [SumLoop()], store, c.current);
      assert [SumLoop()] + [] == [SumLoop()];
    } else {
      c' := D.Config([], SUM_SCOPE, [], store, c.current);
      assert D.Step(c) == D.Going(c') && D.Run(c', 1) == D.Step(c') == D.Ended(c');
    }
  }

  /** From a stop in pass `k` direct execution stops in each later pass and ends. */
  lemma {:induction false} StopsAgain(c: D.Config, n: int, k: nat) returns (stops: seq<D.Config>)
    requires AtStop(c, n, k) && k < n
    ensures Passes(c, stops) && |stops| == n - k - 1
    ensures forall j :: 0 <= j < |stops| ==> stops[j].current == Triangle(k + 1 + j)
    decreases n - k
  {
    hide Passes, D.Step, D.Run, AtPass, AtStop;
    if k + 1 < n {
      var stop := NextStop(c, n, k);
      var later := StopsAgain(stop, n, k + 1);
      stops := [stop] + later;
      assert stops[1..] == later;
      PassesOn(c, 3, stops);
      forall j | 0 <= j < |stops| ensures stops[j].current == Triangle(k + 1 + j) {
        if j > 0 { assert stops[j] == later[j - 1]; } else { StopShows(stop, n, k + 1); }
      }
    } else {
      var _ := StopGoesOn(c, n, k);
      PassesEnd(c, 2);
      stops := [];
    }
  }

  lemma NextStop(c: D.Config, n: int, k: nat) returns (stop: D.Config)
    requires AtStop(c, n, k) && k + 1 < n
    ensures AtStop(stop, n, k + 1) && D.Run(c, 3) == D.Yielded(stop)
  {
    var c' := StopGoesOn(c, n, k);
    stop := PassStops(c', n, k + 1);
  }

  lemma PassesEnd(c: D.Config, d: nat)
    requires D.Run(c, d).Ended?
    ensures Passes(c, [])
  {
  }

  lemma PassesOn(c: D.Config, d: nat, stops: seq<D.Config>)
    requires stops != [] && D.Run(c, d) == D.Yielded(stops[0]) && Passes(stops[0], stops[1..])
    ensures Passes(c, stops)
  {
  }

  lemma StopShows(c: D.Config, n: int, k: nat)
    requires AtStop(c, n, k)
    ensures c.current == Triangle(k)
  {
  }

  lemma SumsStart(n: int) returns (c: D.Config)
    ensures n > 0 ==> AtPass(c, n, 0) && D.Run(D.Start(SUMS, [n]), 3) == D.Going(c)
    ensures n <= 0 ==> D.Run(D.Start(SUMS, [n]), 4).Ended?
  {
    var ps, ss := SUMS.params, SUMS.body;
    assert ps[1..] == [] && ps[..0] == [] && [n][..0] == [];
    assert ss[1..] == [ss[1], ss[2]] && ss[1..][1..] == [ss[2]] && [ss[2]][1..] == [];
    var env, store := Scope(map["n" := 0], Root), map[0 := n];
    SumScope(store);
    hide Eval, D.Write, D.Holds;
    assert ParamScope(ps, Child(Root)) == AddVar(Child(Root), "n", 0) == env;
    assert D.ArgStore(ps[..0], [n][..0]) == map[] && D.ArgStore(ps, [n]) == store;
    assert D.Start(SUMS, [n]) == D.Config(ss, env, [], store, 0);
    var c1 := D.Config(ss[1..], AddVar(env, "i", 1), [], store, 0);
    assert D.Step(D.Start(SUMS, [n])) == D.Going(c1);
    var c2 := D.Config([ss[2]], SUM_SCOPE, [], store, 0);
    assert map["n" := 0]["i" := 1]["s" := 2] == map["n" := 0, "i" := 1, "s" := 2];
    assert D.Step(c1) == D.Going(c2);
    assert SumLoop() == D.Again(ss[2].test, ss[2].step, ss[2].body, [], SUM_SCOPE);
    if n > 0 {
      c := D.Config(ss[2].body, Child(SUM_SCOPE), [SumLoop()], store, 0);
      assert [SumLoop()] + [] == [SumLoop()];
      assert D.Step(c2) == D.Going(c) == D.Run(c2, 1);
      assert D.Run(c1, 2) == D.Going(c);
    } else {
      c := D.Config([], SUM_SCOPE, [], store, 0);
      assert D.Step(c2) == D.Going(c) && D.Run(c, 1) == D.Step(c) == D.Ended(c);
      assert D.Run(c2, 2) == D.Ended(c) == D.Run(c1, 3);
    }
  }

  lemma SumsStop(n: int) returns (stops: seq<D.Config>)
    ensures Passes(D.Start(SUMS, [n]), stops) && |stops| == if n > 0 then n else 0
    ensures forall j :: 0 <= j < |stops| ==> stops[j].current == Triangle(j)
  {
    var c0 := D.Start(SUMS, [n]);
    var c := SumsStart(n);
    if n > 0 {
      var stop := PassStops(c, n, 0);
      var later := StopsAgain(stop, n, 0);
      stops := [stop] + later;
      hide AtStop, AtPass, Passes, D.Step, D.Run, D.Start;
      RunAdds(c0, 3, 2);
      assert stops[1..] == later;
      PassesOn(c0, 5, stops);
      StopShows(stop, n, 0);
    } else {
      stops := [];
    }
  }

  /** For every n the loop shows the first n triangular numbers and then ends. */
  lemma SumsShow(n: int, outer: Option<Label>)
    ensures Shows(SUMS, [n], outer, if n > 0 then seq(n, k requires 0 <= k < n => k * (k + 1) / 2) else [])
  {
    var stops := SumsStop(n);
    SumsTame();
    hide Passes, D.Start, Shows, Fragment, Tame;
    ShowsStops(SUMS, [n], outer, stops, if n > 0 then seq(n, k requires 0 <= k < n => k * (k + 1) / 2) else []);
  }

  lemma SumsTame()
    ensures Fragment(SUMS.body) && Tame(SUMS.body, true)
  {
    assert Fragment(SUMS.body[2].body) && Tame(SUMS.body[2].body, true);
  }

  lemma {:induction false} RunAdds(c: D.Config, d: nat, e: nat)
    requires D.Run(c, d).Going?
    ensures D.Run(c, d + e) == D.Run(D.Run(c, d).c, e)
    decreases d
  {
    if d > 0 { RunAdds(D.Step(c).c, d - 1, e); }
  }
  // ----- scopes -----

  lemma TwoStops(c: D.Config, d: nat, s1: D.Config, s2: D.Config)
    requires D.Run(c, d) == D.Yielded(s1) && D.Run(s1, 1) == D.Yielded(s2) && D.Run(s2, 1).Ended?
    ensures Passes(c, [s1, s2])
  {
    hide D.Run;
    PassesEnd(s2, 1);
    assert [s2][1..] == [] && [s1, s2][1..] == [s2];
    PassesOn(s1, 1, [s2]);
    PassesOn(c, d, [s1, s2]);
  }

  /** `x := x + 1` inside the `if` is a variable of its own: the parameter of that name is
      shown again behind it. */
  const SHADOWS := Program([Param(0, "x", IntType)],
    [DefAssign(1, "y", IntType, Lit(0)),
     If(Lit(1), [DefAssign(2, "x", IntType, Bin(Plus, Ref("x"), Lit(1))), Assign("x", Bin(Times, Ref("x"), Lit(2))),
                 Assign("y", Ref("x"))]),
     Yield(Some(Ref("y"))), Yield(Some(Ref("x")))], IntType)

  /** The scope outside the `if`, and the one inside it once both names are declared. */
  const OUTSIDE := Scope(map["x" := 0, "y" := 1], Root)
  const INSIDE := Scope(map["x" := 2], OUTSIDE)

  lemma ShadowScopes(store: Store)
    ensures AddVar(Child(OUTSIDE), "x", 2) == INSIDE
    ensures Eval(Bin(Plus, Ref("x"), Lit(1)), Child(OUTSIDE), store) == Read(store, 0) + 1
    ensures Eval(Bin(Times, Ref("x"), Lit(2)), INSIDE, store) == Read(store, 2) * 2
    ensures Lookup(INSIDE, "x") == Some(2) && Lookup(INSIDE, "y") == Some(1)
    ensures Eval(Ref("x"), INSIDE, store) == Read(store, 2)
    ensures Eval(Ref("y"), OUTSIDE, store) == Read(store, 1) && Eval(Ref("x"), OUTSIDE, store) == Read(store, 0)
  {
    assert Eval(Ref("x"), Child(OUTSIDE), store) == Read(store, 0) && Eval(Lit(1), Child(OUTSIDE), store) == 1;
    assert Eval(Ref("x"), INSIDE, store) == Read(store, 2) && Eval(Lit(2), INSIDE, store) == 2;
  }

  lemma ShadowEnters(a: int)
    ensures var ss := SHADOWS.body;
      D.Run(D.Start(SHADOWS, [a]), 2)
        == D.Going(D.Config(ss[1].thn, Child(OUTSIDE), [D.Leave(ss[2..], OUTSIDE)], map[0 := a, 1 := 0], 0))
  {
    var ps, ss := SHADOWS.params, SHADOWS.body;
    assert ps[1..] == [] && ps[..0] == [] && [a][..0] == [] && ss[1..][1..] == ss[2..];
    var env := Scope(map["x" := 0], Root);
    assert ParamScope(ps, Child(Root)) == AddVar(Child(Root), "x", 0) == env;
    assert D.ArgStore(ps[..0], [a][..0]) == map[] && D.ArgStore(ps, [a]) == map[0 := a];
    var c1 := D.Config(ss[1..], OUTSIDE, [], map[0 := a, 1 := 0], 0);
    assert AddVar(env, "y", 1) == OUTSIDE && map[0 := a][1 := 0] == map[0 := a, 1 := 0];
    assert D.Step(D.Start(SHADOWS, [a])) == D.Going(c1);
    var c2 := D.Config(ss[1].thn, Child(OUTSIDE), [D.Leave(ss[2..], OUTSIDE)], map[0 := a, 1 := 0], 0);
    assert [D.Leave(ss[2..], OUTSIDE)] + [] == [D.Leave(ss[2..], OUTSIDE)];
    assert D.Step(c1) == D.Going(c2) == D.Run(c1, 1);
  }

  lemma ShadowRuns(a: int)
    ensures var ss := SHADOWS.body; var store := map[0 := a, 1 := 2 * (a + 1), 2 := 2 * (a + 1)];
      D.Run(D.Config(ss[1].thn, Child(OUTSIDE), [D.Leave(ss[2..], OUTSIDE)], map[0 := a, 1 := 0], 0), 4)
        == D.Going(D.Config(ss[2..], OUTSIDE, [], store, 0))
  {
    var thn, k := SHADOWS.body[1].thn, [D.Leave(SHADOWS.body[2..], OUTSIDE)];
    var s0, s1, s2 := map[0 := a, 1 := 0], map[0 := a, 1 := 0, 2 := a + 1], map[0 := a, 1 := 0, 2 := 2 * (a + 1)];
    var s3 := map[0 := a, 1 := 2 * (a + 1), 2 := 2 * (a + 1)];
    ShadowScopes(s0);
    ShadowScopes(s1);
    ShadowScopes(s2);
    hide Eval, Lookup, AddVar;
    assert thn[1..][1..] == thn[2..] && thn[2..][1..] == [] && k[1..] == [];
    var c0, c1 := D.Config(thn, Child(OUTSIDE), k, s0, 0), D.Config(thn[1..], INSIDE, k, s1, 0);
    assert D.Step(c0) == D.Going(c1) by { assert s0[2 := a + 1] == s1; }
    var c2 := D.Config(thn[2..], INSIDE, k, s2, 0);
    assert D.Step(c1) == D.Going(c2) by { assert s1[2 := 2 * (a + 1)] == s2; }
    var c3 := D.Config([], INSIDE, k, s3, 0);
    assert D.Step(c2) == D.Going(c3) by { assert s2[1 := 2 * (a + 1)] == s3; }
    var c4 := D.Config(SHADOWS.body[2..], OUTSIDE, [], s3, 0);
    assert D.Step(c3) == D.Going(c4) == D.Run(c3, 1);
    hide D.Step;
    assert D.Run(c2, 2) == D.Run(c3, 1) && D.Run(c1, 3) == D.Run(c2, 2) && D.Run(c0, 4) == D.Run(c1, 3);
  }

  /** The two yields behind the `if`. */
  lemma ShadowYields(a: int, store: Store)
    requires store == map[0 := a, 1 := 2 * (a + 1), 2 := 2 * (a + 1)]
    ensures var ss := SHADOWS.body;
      var s1, s2 := D.Config([ss[3]], OUTSIDE, [], store, 2 * (a + 1)), D.Config([], OUTSIDE, [], store, a);
      && D.Run(D.Config(ss[2..], OUTSIDE, [], store, 0), 1) == D.Yielded(s1)
      && D.Run(s1, 1) == D.Yielded(s2) && D.Run(s2, 1) == D.Ended(s2)
  {
    var ss := SHADOWS.body;
    ShadowScopes(store);
    hide Eval;
    assert ss[2..] == [ss[2], ss[3]] && ss[2..][1..] == [ss[3]] && [ss[3]][1..] == [];
    var c := D.Config(ss[2..], OUTSIDE, [], store, 0);
    var s1, s2 := D.Config([ss[3]], OUTSIDE, [], store, 2 * (a + 1)), D.Config([], OUTSIDE, [], store, a);
    assert D.Run(c, 1) == D.Step(c) == D.Yielded(s1);
    assert D.Run(s1, 1) == D.Step(s1) == D.Yielded(s2);
    assert D.Run(s2, 1) == D.Step(s2) == D.Ended(s2);
  }

  lemma ShadowStops(a: int, store: Store)
    requires store == map[0 := a, 1 := 2 * (a + 1), 2 := 2 * (a + 1)]
    ensures Passes(D.Start(SHADOWS, [a]), [D.Config([SHADOWS.body[3]], OUTSIDE, [], store, 2 * (a + 1)),
                                           D.Config([], OUTSIDE, [], store, a)])
  {
    var ss := SHADOWS.body;
    ShadowEnters(a);
    ShadowRuns(a);
    ShadowYields(a, store);
    hide D.Start, D.Step, D.Run;
    RunAdds(D.Start(SHADOWS, [a]), 2, 4);
    RunAdds(D.Start(SHADOWS, [a]), 6, 1);
    TwoStops(D.Start(SHADOWS, [a]), 7, D.Config([ss[3]], OUTSIDE, [], store, 2 * (a + 1)),
      D.Config([], OUTSIDE, [], store, a));
  }

  /** The inner x shows 2 * (a + 1), and behind the `if` the parameter still shows a. */
  lemma ShadowsShow(a: int, outer: Option<Label>)
    ensures Shows(SHADOWS, [a], outer, [2 * (a + 1), a])
  {
    var store := map[0 := a, 1 := 2 * (a + 1), 2 := 2 * (a + 1)];
    var s1 := D.Config([SHADOWS.body[3]], OUTSIDE, [], store, 2 * (a + 1));
    ShadowStops(a, store);
    ShadowsTame();
    hide Fragment, Tame, D.Start, Shows, Passes;
    ShowsStops(SHADOWS, [a], outer, [s1, D.Config([], OUTSIDE, [], store, a)], [2 * (a + 1), a]);
  }

  lemma ShadowsTame()
    ensures Fragment(SHADOWS.body) && Tame(SHADOWS.body, true)
  {
    var thn := SHADOWS.body[1].thn;
    assert Fragment(thn) && Tame(thn, true);
    assert thn[1..] == [thn[1], thn[2]] && thn[1..][1..] == [thn[2]] && [thn[2]][1..] == [];
    assert E.EndingOf([thn[2]]) == E.Same;
    assert E.EndingOf(thn[1..]) == E.Same;
    assert E.EndingOf(thn) == E.Same;
  }

  /** `x := a; x := b; yield x; yield`: the second definition of x is passed over, and a
      yield without a value shows the last one again. */
  const REDEFINES := Program(A_B,
    [DefAssign(2, "x", IntType, Ref("a")), DefAssign(3, "x", IntType, Ref("b")), Yield(Some(Ref("x"))), Yield(None)],
    IntType)

  lemma RedefinesStops(a: int, b: int)
    ensures Passes(D.Start(REDEFINES, [a, b]), RedefinesSeen(a, b))
  {
    var ss, s0 := REDEFINES.body, map[0 := a, 1 := b];
    var env0, env := Scope(map["a" := 0, "b" := 1], Root), Scope(map["a" := 0, "b" := 1, "x" := 2], Root);
    TwoParams(a, b);
    var c0, s1, s2 := D.Config(ss, env0, [], s0, 0), s0[2 := a], s0[2 := a][3 := b];
    assert D.Start(REDEFINES, [a, b]) == c0;
    hide D.Start;
    assert ss[1..][1..] == ss[2..] && ss[2..][1..] == [ss[3]] && [ss[3]][1..] == [];
    var c1, c2 := D.Config(ss[1..], env, [], s1, 0), D.Config(ss[2..], env, [], s2, 0);
    assert D.Step(c0) == D.Going(c1) by { assert AddVar(env0, "x", 2) == env; }
    assert D.Step(c1) == D.Going(c2) by { assert AddVar(env, "x", 3) == env; }
    var y1, y2 := D.Config([ss[3]], env, [], s2, a), D.Config([], env, [], s2, a);
    assert D.Run(c2, 1) == D.Step(c2) == D.Yielded(y1);
    assert D.Run(y1, 1) == D.Step(y1) == D.Yielded(y2);
    assert D.Run(y2, 1) == D.Step(y2) == D.Ended(y2);
    hide D.Step;
    assert D.Run(c1, 2) == D.Run(c2, 1) && D.Run(c0, 3) == D.Run(c1, 2);
    hide D.Run;
    TwoStops(c0, 3, y1, y2);
  }

  /** Where it stops: before the second yield and at the end. */
  function RedefinesSeen(a: int, b: int): seq<D.Config> {
    var env, store := Scope(map["a" := 0, "b" := 1, "x" := 2], Root), map[0 := a, 1 := b][2 := a][3 := b];
    [D.Config([REDEFINES.body[3]], env, [], store, a), D.Config([], env, [], store, a)]
  }

  lemma RedefinesShow(a: int, b: int, outer: Option<Label>)
    ensures Shows(REDEFINES, [a, b], outer, [a, a])
  {
    RedefinesStops(a, b);
    assert Tame(REDEFINES.body, true) && Fragment(REDEFINES.body);
    hide Fragment, Tame, Shows, D.Start, Passes;
    ShowsStops(REDEFINES, [a, b], outer, RedefinesSeen(a, b), [a, a]);
  }

  // ----- branches -----

  /** `var m int; if a < b { m = b } else { m = a }; yield m` */
  const LARGER := Program(A_B,
    [Define(2, "m", IntType), IfElse(Bin(Less, Ref("a"), Ref("b")), [Assign("m", Ref("b"))], [Assign("m", Ref("a"))]),
     Yield(Some(Ref("m")))], IntType)

  lemma LargerTame()
    ensures Fragment(LARGER.body) && Tame(LARGER.body, true)
  {
    var thn, els := LARGER.body[1].thn, LARGER.body[1].els;
    assert Fragment(thn) && Fragment(els) && NoDefs(els) && Tame(thn, true) && Tame(els, true);
    assert thn[1..] == [] && els[1..] == [];
  }

  const M_SCOPE := Scope(map["a" := 0, "b" := 1, "m" := 2], Root)

  lemma LargerEnters(a: int, b: int)
    ensures var ss := LARGER.body; var branch := if a < b then ss[1].thn else ss[1].els;
      D.Run(D.Start(LARGER, [a, b]), 2)
        == D.Going(D.Config(branch, Child(M_SCOPE), [D.Leave([ss[2]], M_SCOPE)], map[0 := a, 1 := b], 0))
  {
    var ss, s0, env0 := LARGER.body, map[0 := a, 1 := b], Scope(map["a" := 0, "b" := 1], Root);
    var branch, k := if a < b then ss[1].thn else ss[1].els, [D.Leave([ss[2]], M_SCOPE)];
    TwoParams(a, b);
    var c0, c1 := D.Config(ss, env0, [], s0, 0), D.Config(ss[1..], M_SCOPE, [], s0, 0);
    assert D.Start(LARGER, [a, b]) == c0;
    assert ss[1..] == [ss[1], ss[2]] && ss[1..][1..] == [ss[2]];
    assert D.Step(c0) == D.Going(c1) by { assert AddVar(env0, "m", 2) == M_SCOPE; }
    assert Eval(Ref("a"), M_SCOPE, s0) == a && Eval(Ref("b"), M_SCOPE, s0) == b;
    var c2 := D.Config(branch, Child(M_SCOPE), k, s0, 0);
    assert D.Step(c1) == D.Going(c2) == D.Run(c1, 1) by { assert k + [] == k; }
  }

  lemma LargerEnds(a: int, b: int)
    ensures var ss := LARGER.body; var branch := if a < b then ss[1].thn else ss[1].els;
      var y := D.Config([], M_SCOPE, [], map[0 := a, 1 := b][2 := if a < b then b else a], if a < b then b else a);
      D.Run(D.Config(branch, Child(M_SCOPE), [D.Leave([ss[2]], M_SCOPE)], map[0 := a, 1 := b], 0), 3) == D.Yielded(y)
        && D.Run(y, 1) == D.Ended(y)
  {
    var ss, s0, m := LARGER.body, map[0 := a, 1 := b], if a < b then b else a;
    var branch, k, store := if a < b then ss[1].thn else ss[1].els, [D.Leave([ss[2]], M_SCOPE)], s0[2 := m];
    assert branch[1..] == [] && k[1..] == [] && [ss[2]][1..] == [];
    assert Lookup(Child(M_SCOPE), "m") == Lookup(M_SCOPE, "m") == Some(2);
    assert Eval(branch[0].val, Child(M_SCOPE), s0) == m;
    var c2, c3 := D.Config(branch, Child(M_SCOPE), k, s0, 0), D.Config([], Child(M_SCOPE), k, store, 0);
    assert D.Step(c2) == D.Going(c3);
    var c4, y := D.Config([ss[2]], M_SCOPE, [], store, 0), D.Config([], M_SCOPE, [], store, m);
    assert D.Step(c3) == D.Going(c4);
    assert D.Run(c4, 1) == D.Step(c4) == D.Yielded(y);
    assert D.Run(y, 1) == D.Step(y) == D.Ended(y);
    hide D.Step;
    assert D.Run(c3, 2) == D.Run(c4, 1) && D.Run(c2, 3) == D.Run(c3, 2);
  }

  /** The branch whose test holds is taken, and only that one. */
  lemma LargerShows(a: int, b: int, outer: Option<Label>)
    ensures Shows(LARGER, [a, b], outer, [if a < b then b else a])
  {
    var m := if a < b then b else a;
    var y := D.Config([], M_SCOPE, [], map[0 := a, 1 := b][2 := m], m);
    LargerEnters(a, b);
    LargerEnds(a, b);
    LargerTame();
    hide Fragment, Tame, Shows, D.Start, D.Step, D.Run;
    RunAdds(D.Start(LARGER, [a, b]), 2, 3);
    PassesEnd(y, 1);
    assert [y][1..] == [];
    PassesOn(D.Start(LARGER, [a, b]), 5, [y]);
    ShowsStops(LARGER, [a, b], outer, [y], [m]);
  }
}
