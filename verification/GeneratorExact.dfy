/** When the emitted code does what direct execution does, and when not. */
module GeneratorExact {
  import opened Wrappers
  import opened GeneratorSyntax
  import opened GeneratorLayout
  import opened GeneratorLowering
  import opened GeneratorCorrect
  import opened GeneratorSimulation
  import D = GeneratorDirect
  import E = GeneratorEmitted

  // ----- bodies that nothing joins -----

  /** Which bodies may end how: in a strict list each is joined to what follows it; in
      any list no body of an `if` ends with the end block of an `if` inside. */
  predicate Tame(ss: seq<Stmt>, strict: bool)
    decreases ss
  {
    forall k :: 0 <= k < |ss| ==>
      match ss[k]
      case If(_, thn) => Tame(thn, strict) && !E.EndingOf(thn).ToParent? && (strict ==> E.EndingOf(thn).Same?)
      case IfElse(_, thn, els) =>
        Tame(thn, strict) && Tame(els, strict)
        && (strict ==> !E.EndingOf(thn).Unclosed? && !E.EndingOf(els).Unclosed?)
      case For(_, _, body) => Tame(body, strict)
      case _ => true
  }

  predicate TameFrame(f: D.Frame, strict: bool) {
    match f
    case Leave(rest, _) => Tame(rest, strict)
    case Again(_, _, body, rest, _) => Tame(body, strict) && Tame(rest, strict)
  }

  predicate TameFall(u: E.Fall, strict: bool) { u.Joined? || (u.Nowhere? && !strict) }

  predicate TameState(x: E.Tracked, strict: bool) {
    && x.Valid() && Tame(x.c.ss, strict)
    && (forall j :: 0 <= j < |x.c.k| ==> TameFrame(x.c.k[j], strict))
    && (forall j :: 0 <= j < |x.falls| ==> TameFall(x.falls[j], strict))
  }

  lemma TameRest(ss: seq<Stmt>, strict: bool)
    requires Tame(ss, strict) && ss != []
    ensures Tame(ss[1..], strict)
  {
    var rest := ss[1..];
    assert forall k :: 0 <= k < |rest| ==> rest[k] == ss[k + 1];
  }

  lemma TameStep(x: E.Tracked, strict: bool)
    requires TameState(x, strict)
    ensures !E.Step(x).Hung? ==> TameState(E.Step(x).x, strict)
  {
    hide TameState, E.Track, D.Step, E.FallsOff;
    if !E.FallsOff(x) {
      if x.c.ss == [] { TameBack(x, strict); } else { TameForth(x, strict); }
    } else {
      TameFallen(x, strict);
    }
  }

  lemma TameFallen(x: E.Tracked, strict: bool)
    requires TameState(x, strict) && E.FallsOff(x)
    ensures E.Step(x).Hung?
  {
    assert TameFall(x.falls[0], strict);
  }

  /** At the end of a list the frame that is left holds what comes next. */
  lemma TameBack(x: E.Tracked, strict: bool)
    requires TameState(x, strict) && x.c.ss == []
    ensures TameState(E.DirectStep(x).x, strict)
  {
    if x.c.k != [] { assert TameFrame(x.c.k[0], strict); }
  }

  lemma TameForth(x: E.Tracked, strict: bool)
    requires TameState(x, strict) && x.c.ss != []
    ensures TameState(E.DirectStep(x).x, strict)
  {
    var y, f := E.DirectStep(x).x, E.FallOf(x, x.c.ss[0]);
    assert TameFall(f, strict);
    TameNext(x, strict);
    assert |y.c.k| > |x.c.k| ==> y.falls == [f] + x.falls;
    hide E.DirectStep, E.FallOf, Tame;
  }

  lemma TameNext(x: E.Tracked, strict: bool)
    requires TameState(x, strict) && x.c.ss != []
    ensures var y := E.DirectStep(x).x;
      && Tame(y.c.ss, strict) && (|y.c.k| > |x.c.k| ==> TameFrame(y.c.k[0], strict) && y.c.k[1..] == x.c.k)
      && (|y.c.k| <= |x.c.k| ==> y.c.k == x.c.k && y.falls == x.falls)
  {
    TameRest(x.c.ss, strict);
    hide E.FallOf;
  }

  lemma {:induction false} TameRun(x: E.Tracked, d: nat, strict: bool)
    requires TameState(x, strict)
    ensures !E.Run(x, d).Hung? ==> TameState(E.Run(x, d).x, strict)
    ensures E.Run(x, d).Answers() || strict ==> E.Joins(x, d)
    decreases d
  {
    if d > 0 {
      TameStep(x, strict);
      if E.Step(x).Going? { TameRun(E.Step(x).x, d - 1, strict); }
    }
  }

  lemma TameStart(p: Program, args: seq<int>, strict: bool)
    requires |args| == |p.params| && Tame(p.body, strict)
    ensures TameState(E.Start(p, args), strict)
  {
  }

  // ----- direct runs that never fall off -----

  /** A direct trace in which no call falls off before it answers. */
  ghost predicate JoinedTrace(x: E.Tracked, ids: set<NodeId>, tr: seq<Observation>, ended: bool)
    requires x.Valid()
    decreases |tr|
  {
    if tr == [] then ended ==> exists d: nat :: E.Joins(x, d) && D.Run(x.c, d).Ended?
    else exists d: nat :: E.Joins(x, d) && E.Run(x, d).Yielded? && SeenDirect(D.Run(x.c, d).c, ids) == tr[0]
           && JoinedTrace(E.Run(x, d).x, ids, tr[1..], ended)
  }

  lemma {:induction false} EmittedIsJoined(x: E.Tracked, ids: set<NodeId>, tr: seq<Observation>, ended: bool)
    requires TameState(x, false)
    ensures EmittedTrace(x, ids, tr, ended) <==> JoinedTrace(x, ids, tr, ended)
    decreases |tr|
  {
    forall d: nat
      ensures E.Joins(x, d) ==> (E.Run(x, d).Ended? <==> D.Run(x.c, d).Ended?)
      ensures E.Joins(x, d) && E.Run(x, d).Yielded? ==> D.Run(x.c, d).c == E.Run(x, d).x.c
      ensures E.Run(x, d).Answers() ==> E.Joins(x, d) && TameState(E.Run(x, d).x, false)
    {
      TameRun(x, d, false);
      if E.Joins(x, d) { E.JoinedIsDirect(x, d); }
    }
    if tr != [] {
      forall d: nat | E.Run(x, d).Yielded?
        ensures EmittedTrace(E.Run(x, d).x, ids, tr[1..], ended) <==> JoinedTrace(E.Run(x, d).x, ids, tr[1..], ended)
      {
        EmittedIsJoined(E.Run(x, d).x, ids, tr[1..], ended);
      }
    }
  }

  lemma {:induction false} JoinedTraceIsDirect(x: E.Tracked, ids: set<NodeId>, tr: seq<Observation>, ended: bool)
    requires x.Valid() && JoinedTrace(x, ids, tr, ended)
    ensures DirectTrace(x.c, ids, tr, ended)
    decreases |tr|
  {
    if tr != [] {
      var d: nat :| E.Joins(x, d) && E.Run(x, d).Yielded? && SeenDirect(D.Run(x.c, d).c, ids) == tr[0]
        && JoinedTrace(E.Run(x, d).x, ids, tr[1..], ended);
      E.JoinedIsDirect(x, d);
      JoinedTraceIsDirect(E.Run(x, d).x, ids, tr[1..], ended);
    }
  }

  /** Once a run has answered it stays as it is, and so does whether it fell off. */
  lemma {:induction false} AnsweredStays(x: E.Tracked, d: nat, e: nat)
    requires x.Valid() && E.Run(x, d).Answers()
    ensures E.Run(x, e).Answers() ==> E.Run(x, e) == E.Run(x, d)
    ensures E.Joins(x, d) ==> E.Joins(x, e)
    decreases d
  {
    if d > 0 && e > 0 && E.Step(x).Going? { AnsweredStays(E.Step(x).x, d - 1, e - 1); }
  }

  lemma {:induction false} DirectAnsweredStays(c: D.Config, d: nat, e: nat)
    requires !D.Run(c, d).Going?
    ensures !D.Run(c, e).Going? ==> D.Run(c, e) == D.Run(c, d)
    ensures d <= e ==> D.Run(c, e) == D.Run(c, d)
    decreases d
  {
    if d > 0 && e > 0 && D.Step(c).Going? { DirectAnsweredStays(D.Step(c).c, d - 1, e - 1); }
  }

  /** Direct execution answers call number `n` from here, counting from 0, only after
      falling off the end of a body; it answers the calls before without. */
  ghost predicate LosesCall(x: E.Tracked, n: nat)
    requires x.Valid()
    decreases n
  {
    if n == 0 then exists d: nat :: !D.Run(x.c, d).Going? && !E.Joins(x, d)
    else exists d: nat :: E.Joins(x, d) && E.Run(x, d).Yielded? && LosesCall(E.Run(x, d).x, n - 1)
  }

  ghost predicate LosesSome(x: E.Tracked)
    requires x.Valid()
  {
    exists n: nat :: LosesCall(x, n)
  }

  lemma {:induction false} NothingLost(x: E.Tracked, ids: set<NodeId>, tr: seq<Observation>, ended: bool)
    requires x.Valid() && !LosesSome(x) && DirectTrace(x.c, ids, tr, ended)
    ensures JoinedTrace(x, ids, tr, ended)
    decreases |tr|
  {
    assert !LosesCall(x, 0);
    if tr != [] {
      var d: nat :| D.Run(x.c, d).Yielded? && SeenDirect(D.Run(x.c, d).c, ids) == tr[0]
        && DirectTrace(D.Run(x.c, d).c, ids, tr[1..], ended);
      assert E.Joins(x, d);
      E.JoinedIsDirect(x, d);
      forall n: nat ensures !LosesCall(E.Run(x, d).x, n) { assert !LosesCall(x, n + 1); }
      NothingLost(E.Run(x, d).x, ids, tr[1..], ended);
    }
  }

  lemma NotJoined(x: E.Tracked, ids: set<NodeId>, tr: seq<Observation>, ended: bool)
    requires x.Valid() && (tr != [] || ended)
    requires forall e: nat :: E.Joins(x, e) ==> D.Run(x.c, e).Going?
    ensures !JoinedTrace(x, ids, tr, ended)
  {
    forall e: nat | E.Joins(x, e) ensures !E.Run(x, e).Yielded? && !D.Run(x.c, e).Ended? { E.JoinedIsDirect(x, e); }
  }

  lemma LostAtOnce(x: E.Tracked, ids: set<NodeId>) returns (tr: seq<Observation>, ended: bool)
    requires x.Valid() && LosesCall(x, 0)
    ensures DirectTrace(x.c, ids, tr, ended) && !JoinedTrace(x, ids, tr, ended)
  {
    var d: nat :| !D.Run(x.c, d).Going? && !E.Joins(x, d);
    ended := D.Run(x.c, d).Ended?;
    tr := if ended then [] else [SeenDirect(D.Run(x.c, d).c, ids)];
    forall e: nat | E.Joins(x, e) ensures D.Run(x.c, e).Going? {
      E.JoinedIsDirect(x, e);
      if !D.Run(x.c, e).Going? { AnsweredStays(x, e, d); }
    }
    if !ended { assert DirectTrace(D.Run(x.c, d).c, ids, tr[1..], ended); }
    NotJoined(x, ids, tr, ended);
  }

  /** A lost call shows in some trace. */
  lemma {:induction false} LostShows(x: E.Tracked, ids: set<NodeId>, n: nat) returns (tr: seq<Observation>, ended: bool)
    requires x.Valid() && LosesCall(x, n)
    ensures DirectTrace(x.c, ids, tr, ended) && !JoinedTrace(x, ids, tr, ended)
    decreases n
  {
    if n == 0 {
      tr, ended := LostAtOnce(x, ids);
    } else {
      var d: nat :| E.Joins(x, d) && E.Run(x, d).Yielded? && LosesCall(E.Run(x, d).x, n - 1);
      var y := E.Run(x, d).x;
      var tr1;
      tr1, ended := LostShows(y, ids, n - 1);
      E.JoinedIsDirect(x, d);
      tr := [SeenDirect(y.c, ids)] + tr1;
      assert tr[1..] == tr1;
      if JoinedTrace(x, ids, tr, ended) {
        var e: nat :| E.Joins(x, e) && E.Run(x, e).Yielded? && SeenDirect(D.Run(x.c, e).c, ids) == tr[0]
          && JoinedTrace(E.Run(x, e).x, ids, tr[1..], ended);
        AnsweredStays(x, d, e);
        assert false;
      }
    }
  }

  // ----- the exact condition -----

  /** One call of StepNext returns if and only if direct execution answers it without
      falling off the end of a body that nothing joins to the rest. */
  lemma ReturnsExactlyWhen(bs: seq<Block>, x: E.Tracked, mem: Memory, ts: seq<Term>, g: Site)
    requires SiteOk(g) && Dispatches(bs, g) && Suspended(bs, x, mem, ts, g) && TameState(x, false)
    ensures (exists more, mem' :: StepNext(bs, mem, more, mem')) <==>
      (exists d: nat :: E.Joins(x, d) && !D.Run(x.c, d).Going?)
  {
    if more, mem' :| StepNext(bs, mem, more, mem') {
      var d := StepNextAnswers(bs, x, mem, ts, g, more, mem');
      TameRun(x, d, false);
      E.JoinedIsDirect(x, d);
      assert E.Joins(x, d) && !D.Run(x.c, d).Going?;
    }
    if d: nat :| E.Joins(x, d) && !D.Run(x.c, d).Going? {
      E.JoinedIsDirect(x, d);
      var mem', _ := StepNextFollows(bs, x, d, mem, ts, g);
    }
  }

  /** Alternating StepNext and GetCurrent shows exactly the observations that direct
      execution yields, one after another, and StepNext first answers false exactly
      when direct execution ends. */
  ghost predicate KeepsMeaning(p: Program, args: seq<int>, outer: Option<Label>)
    requires |args| == |p.params|
  {
    forall tr, ended :: DirectTrace(D.Start(p, args), SiteOf(p).vals.Keys, tr, ended)
                   <==> MachineTrace(Compile(p, outer), Setup(p, args), SiteOf(p), tr, ended)
  }

  /** The emitted code keeps the meaning of a program for these arguments if and only if
      direct execution answers no call after falling off. */
  lemma KeptExactlyWhen(p: Program, args: seq<int>, outer: Option<Label>)
    requires Fragment(p.body) && Tame(p.body, false) && |args| == |p.params|
    ensures KeepsMeaning(p, args, outer) <==> !LosesSome(E.Start(p, args))
  {
    var x, ids := E.Start(p, args), SiteOf(p).vals.Keys;
    if !LosesSome(x) {
      forall tr, ended
        ensures DirectTrace(x.c, ids, tr, ended) <==>
          MachineTrace(Compile(p, outer), Setup(p, args), SiteOf(p), tr, ended)
      {
        MachineIsJoined(p, args, outer, tr, ended);
        if DirectTrace(x.c, ids, tr, ended) { NothingLost(x, ids, tr, ended); }
      }
    } else {
      var n: nat :| LosesCall(x, n);
      var tr, ended := LostShows(x, ids, n);
      MachineIsJoined(p, args, outer, tr, ended);
      assert !KeepsMeaning(p, args, outer);
    }
  }

  /** The machine shows the direct traces in which no call falls off, and no others. */
  lemma MachineIsJoined(p: Program, args: seq<int>, outer: Option<Label>, tr: seq<Observation>, ended: bool)
    requires Fragment(p.body) && Tame(p.body, false) && |args| == |p.params|
    ensures JoinedTrace(E.Start(p, args), SiteOf(p).vals.Keys, tr, ended)
       <==> MachineTrace(Compile(p, outer), Setup(p, args), SiteOf(p), tr, ended)
    ensures JoinedTrace(E.Start(p, args), SiteOf(p).vals.Keys, tr, ended)
        ==> DirectTrace(D.Start(p, args), SiteOf(p).vals.Keys, tr, ended)
  {
    var x, ids := E.Start(p, args), SiteOf(p).vals.Keys;
    TameStart(p, args, false);
    LoweringMeans(p, args, outer, tr, ended);
    EmittedIsJoined(x, ids, tr, ended);
    if JoinedTrace(x, ids, tr, ended) { JoinedTraceIsDirect(x, ids, tr, ended); }
  }

  /** In call number `n` from here, answered or not, direct execution falls off. */
  ghost predicate FallsInCall(x: E.Tracked, n: nat)
    requires x.Valid()
    decreases n
  {
    if n == 0 then exists d: nat :: !E.Joins(x, d)
    else exists d: nat :: E.Joins(x, d) && E.Run(x, d).Yielded? && FallsInCall(E.Run(x, d).x, n - 1)
  }

  ghost predicate FallsSometime(x: E.Tracked)
    requires x.Valid()
  {
    exists n: nat :: FallsInCall(x, n)
  }

  lemma {:induction false} SameTraces(x: E.Tracked, ids: set<NodeId>, tr: seq<Observation>, ended: bool)
    requires x.Valid() && !FallsSometime(x)
    ensures DirectTrace(x.c, ids, tr, ended) <==> EmittedTrace(x, ids, tr, ended)
    decreases |tr|
  {
    assert !FallsInCall(x, 0);
    forall d: nat
      ensures D.Run(x.c, d).Ended? <==> E.Run(x, d).Ended?
      ensures D.Run(x.c, d).Yielded? <==> E.Run(x, d).Yielded?
      ensures E.Run(x, d).Yielded? ==> D.Run(x.c, d).c == E.Run(x, d).x.c && !FallsSometime(E.Run(x, d).x)
    {
      assert E.Joins(x, d);
      E.JoinedIsDirect(x, d);
      if E.Run(x, d).Yielded? {
        forall n: nat ensures !FallsInCall(E.Run(x, d).x, n) { assert !FallsInCall(x, n + 1); }
      }
    }
    if tr != [] {
      forall d: nat | E.Run(x, d).Yielded?
        ensures DirectTrace(E.Run(x, d).x.c, ids, tr[1..], ended) <==> EmittedTrace(E.Run(x, d).x, ids, tr[1..], ended)
      {
        SameTraces(E.Run(x, d).x, ids, tr[1..], ended);
      }
    }
  }

  /** Whatever its bodies, a program that never falls off for these arguments keeps its meaning. */
  lemma KeptWhenNeverFalling(p: Program, args: seq<int>, outer: Option<Label>)
    requires Fragment(p.body) && |args| == |p.params| && !FallsSometime(E.Start(p, args))
    ensures KeepsMeaning(p, args, outer)
  {
    var x, ids := E.Start(p, args), SiteOf(p).vals.Keys;
    forall tr, ended
      ensures DirectTrace(x.c, ids, tr, ended) <==>
        MachineTrace(Compile(p, outer), Setup(p, args), SiteOf(p), tr, ended)
    {
      SameTraces(x, ids, tr, ended);
      LoweringMeans(p, args, outer, tr, ended);
    }
  }

  /** A program whose bodies are all joined keeps its meaning, whatever its arguments. */
  lemma LoweringKeepsMeaning(p: Program, args: seq<int>, outer: Option<Label>)
    requires Fragment(p.body) && Tame(p.body, true) && |args| == |p.params|
    ensures KeepsMeaning(p, args, outer)
  {
    TameStart(p, args, true);
    forall n: nat ensures !FallsInCall(E.Start(p, args), n) { StrictNeverFalls(E.Start(p, args), n); }
    KeptWhenNeverFalling(p, args, outer);
  }

  lemma {:induction false} StrictNeverFalls(x: E.Tracked, n: nat)
    requires TameState(x, true)
    ensures !FallsInCall(x, n)
    decreases n
  {
    assert x.Valid();
    hide TameState, E.Run, E.Joins;
    if n == 0 {
      forall d: nat ensures E.Joins(x, d) { TameRun(x, d, true); }
    } else {
      forall d: nat | E.Run(x, d).Yielded? ensures !FallsInCall(E.Run(x, d).x, n - 1) {
        TameRun(x, d, true);
        StrictNeverFalls(E.Run(x, d).x, n - 1);
      }
    }
  }

  // ----- programs that lose their meaning -----

  /** `if 1 { yield 5 }`: the block resumed after the yield is never joined to the rest. */
  const YIELD_IN_IF := Program([], [If(Lit(1), [Yield(Some(Lit(5)))])], IntType)

  lemma NoLocals(p: Program)
    requires Decls(p.body) == [] && p.params == []
    ensures SiteOf(p).vals == map[]
  {
    LayoutTyped(p);
    assert FrameOf(p).slots == [];
  }

  lemma YieldInIfNoLocals()
    ensures SiteOf(YIELD_IN_IF).vals.Keys == {}
  {
    var body := YIELD_IN_IF.body;
    assert Decls(body) == Decls(body[0].thn) == [] by { assert body[1..] == [] && body[0].thn[1..] == []; }
    NoLocals(YIELD_IN_IF);
  }

  /** The state after the yield. */
  function AfterYield(): E.Tracked {
    var env := Child(Root);
    E.Tracked(D.Config([], Child(env), [D.Leave([], env)], map[], 5), [], Child(env), [E.Nowhere])
  }

  lemma YieldInIfRuns()
    ensures E.Joins(E.Start(YIELD_IN_IF, []), 2) && E.Run(E.Start(YIELD_IN_IF, []), 2) == E.Yielded(AfterYield())
    ensures D.Run(AfterYield().c, 2).Ended?
  {
    var x0, env, thn := E.Start(YIELD_IN_IF, []), Child(Root), YIELD_IN_IF.body[0].thn;
    var c1 := D.Config(thn, Child(env), [D.Leave([], env)], map[], 0);
    assert [D.Leave([], env)] + [] == [D.Leave([], env)] && YIELD_IN_IF.body[1..] == [] && thn[1..] == [];
    assert D.Step(x0.c) == D.Going(c1);
    var x1 := E.Tracked(c1, thn, Child(env), [E.Nowhere]);
    assert E.EndingOf(thn) == E.Unclosed;
    assert E.Step(x0) == E.Going(x1);
    assert E.Step(x1) == E.Yielded(AfterYield());
    assert E.Run(x1, 1) == E.Step(x1) && E.Joins(x1, 1);
    var c2, c3 := AfterYield().c, D.Config([], env, [], map[], 5);
    assert D.Step(c2) == D.Going(c3) && D.Run(c3, 1) == D.Step(c3) == D.Ended(c3);
  }

  /** Direct execution yields and ends, but no run that never falls off ends. */
  lemma YieldInIfTraces()
    ensures var x, tr := E.Start(YIELD_IN_IF, []), [Observation(5, map[])];
      DirectTrace(D.Start(YIELD_IN_IF, []), {}, tr, true) && JoinedTrace(x, {}, tr, false)
        && !JoinedTrace(x, {}, tr, true)
  {
    var x, y, tr := E.Start(YIELD_IN_IF, []), AfterYield(), [Observation(5, map[])];
    YieldInIfRuns();
    E.JoinedIsDirect(x, 2);
    assert y.c.current == 5 && SeenDirect(y.c, {}) == tr[0] && tr[1..] == [];
    assert DirectTrace(y.c, {}, tr[1..], true) && JoinedTrace(y, {}, tr[1..], false);
    if JoinedTrace(x, {}, tr, true) {
      var e: nat :| E.Joins(x, e) && E.Run(x, e).Yielded? && SeenDirect(D.Run(x.c, e).c, {}) == tr[0]
        && JoinedTrace(E.Run(x, e).x, {}, tr[1..], true);
      AnsweredStays(x, 2, e);
      AfterYieldFalls();
      assert false;
    }
  }

  lemma AfterYieldFalls()
    ensures forall d: nat :: E.Joins(AfterYield(), d) ==> D.Run(AfterYield().c, d).Going?
  {
    assert E.FallsOff(AfterYield());
  }

  /** Direct execution yields 5 and ends; StepNext answers once, with 5, and its second
      call never returns. */
  lemma YieldInIfNotJoined(outer: Option<Label>)
    ensures var p, tr := YIELD_IN_IF, [Observation(5, map[])];
      && DirectTrace(D.Start(p, []), SiteOf(p).vals.Keys, tr, true)
      && MachineTrace(Compile(p, outer), Setup(p, []), SiteOf(p), tr, false)
      && !MachineTrace(Compile(p, outer), Setup(p, []), SiteOf(p), tr, true)
  {
    var p, tr := YIELD_IN_IF, [Observation(5, map[])];
    hide Compile, Setup, SiteOf, FrameOf, EmitStmts, BuildCtx, DirectTrace, JoinedTrace, MachineTrace, E.Start, D.Start;
    YieldInIfNoLocals();
    YieldInIfTraces();
    MachineIsJoined(p, [], outer, tr, true);
    MachineIsJoined(p, [], outer, tr, false);
  }

  /** `if 1 { if 1 {} }`: the inner end leads back to the block that holds the outer `if`. */
  const IF_IN_IF := Program([], [If(Lit(1), [If(Lit(1), [])])], IntType)

  /** Direct execution ends; the first call of StepNext goes round for ever. */
  lemma IfInIfGoesRound(outer: Option<Label>)
    ensures DirectTrace(D.Start(IF_IN_IF, []), SiteOf(IF_IN_IF).vals.Keys, [], true)
    ensures !MachineTrace(Compile(IF_IN_IF, outer), Setup(IF_IN_IF, []), SiteOf(IF_IN_IF), [], true)
  {
    IfInIfEnds();
    LoweringMeans(IF_IN_IF, [], outer, [], true);
    forall d: nat ensures E.Run(E.Start(IF_IN_IF, []), d).Going? { IfInIfGoesOn(d); }
  }

  lemma IfInIfEnds()
    ensures D.Run(D.Start(IF_IN_IF, []), 5).Ended?
  {
    var env, ss := Child(Root), IF_IN_IF.body;
    assert ss[1..] == [] && ss[0].thn[1..] == [];
    var outside, inside := D.Leave([], env), D.Leave([], Child(env));
    var c1 := D.Config(ss[0].thn, Child(env), [outside], map[], 0);
    assert [outside] + [] == [outside] && D.Step(D.Start(IF_IN_IF, [])) == D.Going(c1);
    var c2 := D.Config([], Child(Child(env)), [inside, outside], map[], 0);
    assert [inside] + [outside] == [inside, outside] && D.Step(c1) == D.Going(c2);
    var c3 := D.Config([], Child(env), [outside], map[], 0);
    assert [inside, outside][1..] == [outside] && D.Step(c2) == D.Going(c3);
    var c4 := D.Config([], env, [], map[], 0);
    assert [outside][1..] == [] && D.Step(c3) == D.Going(c4) && D.Run(c4, 1) == D.Step(c4) == D.Ended(c4);
    assert D.Run(c3, 2) == D.Run(c4, 1) && D.Run(c2, 3) == D.Run(c3, 2) && D.Run(c1, 4) == D.Run(c2, 3);
  }

  lemma {:induction false} IfInIfGoesOn(d: nat)
    ensures E.Run(E.Start(IF_IN_IF, []), d).Going?
    decreases d
  {
    var env, ss := Child(Root), IF_IN_IF.body;
    var x0, thn := E.Start(IF_IN_IF, []), ss[0].thn;
    assert ss[1..] == [] && thn[1..] == [] && E.EndingOf(thn) == E.ToParent;
    var outside, inside, back := D.Leave([], env), D.Leave([], Child(env)), E.Rerun(ss, env);
    var x1 := E.Tracked(D.Config(thn, Child(env), [outside], map[], 0), thn, Child(env), [back]);
    assert [outside] + [] == [outside] && [back] + [] == [back] && E.Step(x0) == E.Going(x1);
    var x2 := E.Tracked(D.Config([], Child(Child(env)), [inside, outside], map[], 0), [], Child(Child(env)),
      [E.Joined, back]);
    assert [inside] + [outside] == [inside, outside] && [E.Joined] + [back] == [E.Joined, back]
      && E.Step(x1) == E.Going(x2);
    var x3 := E.Tracked(D.Config([], Child(env), [outside], map[], 0), [], Child(env), [back]);
    assert [inside, outside][1..] == [outside] && [E.Joined, back][1..] == [back] && E.Step(x2) == E.Going(x3);
    assert [outside][1..] == [] && [back][1..] == [] && E.Step(x3) == E.Going(x0);
    if d >= 4 {
      IfInIfGoesOn(d - 4);
      assert E.Run(x3, d - 3) == E.Run(x0, d - 4) && E.Run(x2, d - 2) == E.Run(x3, d - 3)
        && E.Run(x1, d - 1) == E.Run(x2, d - 2);
    } else if d > 0 {
      assert d > 1 ==> E.Run(x1, d - 1) == E.Run(x2, d - 2);
      assert d > 2 ==> E.Run(x2, d - 2) == E.Run(x3, d - 3);
    }
  }

  /** `if x == 0 { x = 1; if 1 {} }`, called with 0: the second time round the outer test fails. */
  const SET_ONCE := Program([Param(0, "x", IntType)],
    [If(Bin(Equal, Ref("x"), Lit(0)), [Assign("x", Lit(1)), If(Lit(1), [])])], IntType)

  /** The states of its run: before the assignment, after it, in the inner body, at the end
      of the outer body, and outside again before and after the test. */
  function SetOnce(n: nat): E.Tracked
    requires n < 6
  {
    var env, ss := ParamScope(SET_ONCE.params, Child(Root)), SET_ONCE.body;
    var outside, inside, back := D.Leave([], env), D.Leave([], Child(env)), E.Rerun(ss, env);
    var thn, inner := ss[0].thn, Child(Child(env));
    match n
    case 0 => E.Tracked(D.Config(thn, Child(env), [outside], map[0 := 0], 0), thn, Child(env), [back])
    case 1 => E.Tracked(D.Config(thn[1..], Child(env), [outside], map[0 := 1], 0), thn, Child(env), [back])
    case 2 => E.Tracked(D.Config([], inner, [inside, outside], map[0 := 1], 0), [], inner, [E.Joined, back])
    case 3 => E.Tracked(D.Config([], Child(env), [outside], map[0 := 1], 0), [], Child(env), [back])
    case 4 => E.Tracked(D.Config(ss, env, [], map[0 := 1], 0), ss, env, [])
    case _ => E.Tracked(D.Config([], env, [], map[0 := 1], 0), [], env, [])
  }

  lemma SetOnceEnters()
    ensures !E.FallsOff(E.Start(SET_ONCE, [0])) && E.DirectStep(E.Start(SET_ONCE, [0])) == E.Going(SetOnce(0))
  {
    var x, y, env, ss := E.Start(SET_ONCE, [0]), SetOnce(0), ParamScope(SET_ONCE.params, Child(Root)), SET_ONCE.body;
    SetOnceFalls();
    SetOnceScope();
    hide ParamScope, D.ArgStore, E.EndingOf, E.FallOf;
    assert x.c.store == map[0 := 0] && Lookup(env, "x") == Some(0) && ss[1..] == [];
    assert D.Step(x.c) == D.Going(y.c) by { assert [D.Leave([], env)] + [] == [D.Leave([], env)]; }
    assert E.Track(x, y.c) == y by { assert [E.Rerun(ss, env)] + [] == [E.Rerun(ss, env)]; }
  }

  lemma SetOnceFalls()
    ensures E.FallOf(E.Start(SET_ONCE, [0]), SET_ONCE.body[0])
      == E.Rerun(SET_ONCE.body, ParamScope(SET_ONCE.params, Child(Root)))
  {
    var thn := SET_ONCE.body[0].thn;
    assert thn[1..] == [thn[1]] && thn[1..][1..] == [] && E.EndingOf(thn[1..]) == E.ToParent;
  }

  lemma SetOnceScope()
    ensures ParamScope(SET_ONCE.params, Child(Root)) == Scope(map["x" := 0], Root)
    ensures D.ArgStore(SET_ONCE.params, [0]) == map[0 := 0]
  {
    assert SET_ONCE.params[1..] == [] && AddVar(Child(Root), "x", 0) == Scope(map["x" := 0], Root);
    assert SET_ONCE.params[..0] == [] && D.ArgStore(SET_ONCE.params[..0], [0][..0]) == map[];
  }

  lemma SetOnceAssigns()
    ensures !E.FallsOff(SetOnce(0)) && E.DirectStep(SetOnce(0)) == E.Going(SetOnce(1))
  {
    SetOnceScope();
  }

  lemma SetOnceInside()
    ensures !E.FallsOff(SetOnce(1)) && E.DirectStep(SetOnce(1)) == E.Going(SetOnce(2))
  {
    var env, thn := ParamScope(SET_ONCE.params, Child(Root)), SET_ONCE.body[0].thn;
    var outside, inside, back := D.Leave([], env), D.Leave([], Child(env)), E.Rerun(SET_ONCE.body, env);
    assert thn[1..] == [thn[1]] && thn[1..][1..] == [];
    assert [inside] + [outside] == [inside, outside] && [E.Joined] + [back] == [E.Joined, back];
  }

  lemma SetOnceLeaves()
    ensures !E.FallsOff(SetOnce(2)) && E.DirectStep(SetOnce(2)) == E.Going(SetOnce(3))
    ensures E.FallsOff(SetOnce(3)) && E.Step(SetOnce(3)) == E.Going(SetOnce(4))
      && D.Step(SetOnce(3).c) == D.Going(SetOnce(5).c)
  {
  }

  lemma SetOnceEnds()
    ensures E.Step(SetOnce(4)) == E.Going(SetOnce(5)) && E.Step(SetOnce(5)).Ended? && D.Step(SetOnce(5).c).Ended?
  {
    SetOnceScope();
    var env := ParamScope(SET_ONCE.params, Child(Root));
    hide ParamScope, E.EndingOf;
    assert Lookup(env, "x") == Some(0) && Eval(SET_ONCE.body[0].cond, env, map[0 := 1]) == 0;
    assert SET_ONCE.body[1..] == [];
  }

  /** Falling off need not show when an `if` body ends with an `if`: this program does,
      and keeps its meaning all the same. */
  lemma SetOnceKept(outer: Option<Label>)
    ensures LosesSome(E.Start(SET_ONCE, [0])) && KeepsMeaning(SET_ONCE, [0], outer)
  {
    var x, p := E.Start(SET_ONCE, [0]), SET_ONCE;
    SetOnceRuns();
    assert LosesCall(x, 0);
    forall tr, ended
      ensures DirectTrace(D.Start(p, [0]), SiteOf(p).vals.Keys, tr, ended)
         <==> MachineTrace(Compile(p, outer), Setup(p, [0]), SiteOf(p), tr, ended)
    {
      LoweringMeans(p, [0], outer, tr, ended);
      forall d: nat ensures !E.Run(x, d).Yielded? && !D.Run(x.c, d).Yielded? {
        AnsweredStays(x, 7, d);
        DirectAnsweredStays(x.c, 6, d);
      }
    }
  }

  lemma TrackedStep(x: E.Tracked)
    requires x.Valid() && E.DirectStep(x).Going?
    ensures D.Step(x.c) == D.Going(E.DirectStep(x).x.c)
  {
  }

  lemma SetOnceRuns()
    ensures var x := E.Start(SET_ONCE, [0]); E.Run(x, 7).Ended? && D.Run(x.c, 6).Ended? && !E.Joins(x, 6)
  {
    SetOnceEnters();
    SetOnceAssigns();
    SetOnceInside();
    SetOnceLeaves();
    SetOnceEnds();
    TrackedStep(E.Start(SET_ONCE, [0]));
    TrackedStep(SetOnce(0));
    TrackedStep(SetOnce(1));
    TrackedStep(SetOnce(2));
    hide SetOnce, E.Start, E.DirectStep, D.Step, E.FallsOff;
    var x := E.Start(SET_ONCE, [0]);
    assert E.Run(SetOnce(4), 2) == E.Run(SetOnce(5), 1) == E.Step(SetOnce(5));
    assert E.Run(x, 7) == E.Run(SetOnce(0), 6) == E.Run(SetOnce(1), 5) == E.Run(SetOnce(2), 4) == E.Run(SetOnce(3), 3)
      == E.Run(SetOnce(4), 2);
    assert !E.Joins(SetOnce(2), 3) && !E.Joins(SetOnce(1), 4) && !E.Joins(SetOnce(0), 5);
    assert D.Run(SetOnce(5).c, 1) == D.Step(SetOnce(5).c);
    assert D.Run(x.c, 6) == D.Run(SetOnce(0).c, 5) == D.Run(SetOnce(1).c, 4) == D.Run(SetOnce(2).c, 3)
      == D.Run(SetOnce(3).c, 2);
  }
}
