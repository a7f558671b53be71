/** Import cycles: some order of loading always runs into the check of the father set, and
    some order may wait for ever instead. */
module ModuleCycles {
  import opened ModuleLoader

  // ----- loading depth first -----

  /** Each module on the chain has asked for the next one and everything else has ended;
      `callers[j]` is the process that waits for `chain[j]`, and there may be one more, which
      waits for a module that is closed already. */
  ghost predicate DepthFirst(src: Sources, st: State, chain: seq<Mod>, callers: seq<Proc>) {
    && |chain| <= |callers| <= |chain| + 1
    && (forall j :: 0 <= j < |callers| ==>
         if j == 0 then callers[j] == Root else callers[j].File? && callers[j].m == chain[j - 1])
    && (forall i, j :: 0 <= i < j < |chain| ==> chain[i] != chain[j])
    && (forall j :: 0 <= j < |chain| ==> OnChain(src, st, chain, callers, j))
    && (|callers| > |chain| ==> Waits(src, st, callers[|chain|]) && IsClosed(st, Asked(src, st, callers[|chain|])))
    && (forall p :: st.At(p).Loading? ==> p in callers)
    && (forall m :: m in st.phase && st.phase[m] != Closed ==> m in chain)
  }

  predicate Waits(src: Sources, st: State, p: Proc) { st.At(p).Loading? && st.At(p).k < |List(src, p)| }

  /** The module the process waits for. */
  function Asked(src: Sources, st: State, p: Proc): Mod
    requires Waits(src, st, p)
  {
    List(src, p)[st.At(p).k]
  }

  ghost predicate OnChain(src: Sources, st: State, chain: seq<Mod>, callers: seq<Proc>, j: nat)
    requires j < |chain| <= |callers|
  {
    var m := chain[j];
    && m in st.phase && st.phase[m] != Closed && (j + 1 < |callers| ==> st.phase[m] == Parsing)
    && Waits(src, st, callers[j]) && Asked(src, st, callers[j]) == m
    && m in st.fathers && forall f :: f in st.fathers[m] <==> f in chain[..j + 1]
  }

  /** The top of the chain, and the process that acts for it. */
  predicate ActsForTop(st: State, chain: seq<Mod>, p: Proc) {
    if chain == [] then p == Root
    else p.File? && p.m == chain[|chain| - 1] && p.m in st.phase && st.phase[p.m] == Parsing
  }

  lemma KeptOnChain(src: Sources, st: State, chain: seq<Mod>, callers: seq<Proc>, p: Proc, k: nat, j: nat,
          more: seq<Mod>)
    requires j < |chain| == |callers| && OnChain(src, st, chain, callers, j) && ActsForTop(st, chain, p)
    requires Enabled(src, st, Call(p, k)) && !Enter(src, st, p, k).panicked && |more| <= 1
    ensures OnChain(src, Enter(src, st, p, k), chain + more, callers + [p], j)
  {
    assert (chain + more)[..j + 1] == chain[..j + 1];
  }

  lemma TopFathers(src: Sources, st: State, chain: seq<Mod>, callers: seq<Proc>, p: Proc)
    requires DepthFirst(src, st, chain, callers) && ActsForTop(st, chain, p)
    ensures forall f :: f in FathersOf(st, p) <==> f in chain
  {
    if chain != [] { assert OnChain(src, st, chain, callers, |chain| - 1) && chain[..|chain|] == chain; }
  }

  /** A new module at the top of the chain. */
  lemma NewOnChain(src: Sources, st: State, chain: seq<Mod>, callers: seq<Proc>, p: Proc, k: nat)
    requires |chain| == |callers| && Enabled(src, st, Call(p, k)) && !Enter(src, st, p, k).panicked
    requires List(src, p)[k] !in st.phase && forall f :: f in FathersOf(st, p) <==> f in chain
    ensures OnChain(src, Enter(src, st, p, k), chain + [List(src, p)[k]], callers + [p], |chain|)
  {
    var chain' := chain + [List(src, p)[k]];
    assert chain'[..|chain| + 1] == chain';
  }

  lemma ChainStarted(src: Sources, st: State, chain: seq<Mod>, callers: seq<Proc>)
    requires DepthFirst(src, st, chain, callers)
    ensures forall i :: 0 <= i < |chain| ==> chain[i] in st.phase
  {
    forall i | 0 <= i < |chain| ensures chain[i] in st.phase { assert OnChain(src, st, chain, callers, i); }
  }

  /** The module asked for is new: it goes on the chain. */
  lemma CallsNew(src: Sources, st: State, chain: seq<Mod>, callers: seq<Proc>, p: Proc, k: nat)
    requires DepthFirst(src, st, chain, callers) && |callers| == |chain| && ActsForTop(st, chain, p)
    requires Enabled(src, st, Call(p, k)) && List(src, p)[k] !in st.phase && !Enter(src, st, p, k).panicked
    ensures DepthFirst(src, Enter(src, st, p, k), chain + [List(src, p)[k]], callers + [p])
  {
    var v, st' := List(src, p)[k], Enter(src, st, p, k);
    var chain', callers' := chain + [v], callers + [p];
    TopFathers(src, st, chain, callers, p);
    ChainStarted(src, st, chain, callers);
    NewOnChain(src, st, chain, callers, p, k);
    assert forall j :: 0 <= j < |chain| ==> OnChain(src, st, chain, callers, j);
    hide OnChain;
    forall j | 0 <= j < |chain'| ensures OnChain(src, st', chain', callers', j) {
      if j < |chain| { KeptOnChain(src, st, chain, callers, p, k, j, [v]); }
    }
  }

  /** The module asked for has been started before and is no father: it is closed. */
  lemma CallsClosed(src: Sources, st: State, chain: seq<Mod>, callers: seq<Proc>, p: Proc, k: nat)
    requires DepthFirst(src, st, chain, callers) && |callers| == |chain| && ActsForTop(st, chain, p)
    requires Enabled(src, st, Call(p, k)) && List(src, p)[k] in st.phase && !Enter(src, st, p, k).panicked
    ensures DepthFirst(src, Enter(src, st, p, k), chain, callers + [p])
  {
    var st', callers' := Enter(src, st, p, k), callers + [p];
    TopFathers(src, st, chain, callers, p);
    forall j | 0 <= j < |chain| ensures OnChain(src, st', chain, callers', j) {
      KeptOnChain(src, st, chain, callers, p, k, j, []);
      assert chain + [] == chain;
    }
  }
  /** The last caller goes on: the module it waited for is closed. */
  lemma ReturnsDeep(src: Sources, st: State, chain: seq<Mod>, callers: seq<Proc>)
    requires Inv(src, st) && DepthFirst(src, st, chain, callers) && |callers| > |chain| && !st.panicked
    ensures var p := callers[|chain|];
      Enabled(src, st, Return(p, st.At(p).k))
        && DepthFirst(src, Step(src, st, Return(p, st.At(p).k)), chain, callers[..|chain|])
  {
    var p := callers[|chain|];
    assert ProcOk(src, st, p);
    hide Inv, ProcOk;
    var st', before := st.(place := st.place[p := Next(st.At(p).k + 1)]), callers[..|chain|];
    forall j | 0 <= j < |chain| ensures OnChain(src, st', chain, before, j) {
      StaysWhenLastReturns(src, st, chain, callers, j);
    }
    forall q | st'.At(q).Loading? ensures q in before {
      assert q in callers && q != p;
      assert callers == before + [p];
    }
  }

  lemma StaysWhenLastReturns(src: Sources, st: State, chain: seq<Mod>, callers: seq<Proc>, j: nat)
    requires DepthFirst(src, st, chain, callers) && |callers| > |chain| && j < |chain|
    ensures var p := callers[|chain|];
      OnChain(src, st.(place := st.place[p := Next(st.At(p).k + 1)]), chain, callers[..|chain|], j)
  {
    assert OnChain(src, st, chain, callers, j);
    assert callers[j] != callers[|chain|];
  }

  /** The phases of the module at the top after its files are parsed. */
  lemma PhasesDeep(src: Sources, st: State, chain: seq<Mod>, callers: seq<Proc>, a: Action)
    requires Inv(src, st) && DepthFirst(src, st, chain, callers) && |callers| == |chain| > 0
    requires Enabled(src, st, a) && (a.Merge? || a.Begin? || a.End?) && a.m == chain[|chain| - 1]
    ensures DepthFirst(src, Step(src, st, a), chain, callers)
  {
    var st' := Step(src, st, a);
    forall j | 0 <= j < |chain| ensures OnChain(src, st', chain, callers, j) {
      assert OnChain(src, st, chain, callers, j);
    }
  }

  lemma ClosesDeep(src: Sources, st: State, chain: seq<Mod>, callers: seq<Proc>)
    requires Inv(src, st) && DepthFirst(src, st, chain, callers) && |callers| == |chain| > 0
    requires Enabled(src, st, Close(chain[|chain| - 1]))
    ensures DepthFirst(src, Step(src, st, Close(chain[|chain| - 1])), chain[..|chain| - 1], callers)
  {
    var n := |chain| - 1;
    var st', below := Step(src, st, Close(chain[n])), chain[..n];
    assert OnChain(src, st, chain, callers, n);
    forall j | 0 <= j < n ensures OnChain(src, st', below, callers, j) {
      assert OnChain(src, st, chain, callers, j) && chain[..j + 1] == below[..j + 1];
    }
    forall m | m in st'.phase && st'.phase[m] != Closed ensures m in below {
      assert m in chain && m != chain[n];
    }
  }

  /** Loading depth first can always go on until it panics or is finished. */
  lemma GoesDeeper(src: Sources, st: State, chain: seq<Mod>, callers: seq<Proc>)
    returns (a: Action, chain': seq<Mod>, callers': seq<Proc>)
    requires Inv(src, st) && Complete(src) && DepthFirst(src, st, chain, callers) && !st.panicked
      && !Finished(src, st)
    ensures Enabled(src, st, a)
    ensures Step(src, st, a).panicked || DepthFirst(src, Step(src, st, a), chain', callers')
  {
    var n := |chain|;
    if |callers| > n {
      ReturnsDeep(src, st, chain, callers);
      a, chain', callers' := Return(callers[n], st.At(callers[n]).k), chain, callers[..n];
    } else if n == 0 {
      assert ProcOk(src, st, Root);
      a, chain', callers' := CallsDeep(src, st, chain, callers, Root, st.At(Root).k);
    } else {
      a, chain', callers' := TopGoesOn(src, st, chain, callers);
    }
  }

  lemma CallsDeep(src: Sources, st: State, chain: seq<Mod>, callers: seq<Proc>, p: Proc, k: nat)
    returns (a: Action, chain': seq<Mod>, callers': seq<Proc>)
    requires DepthFirst(src, st, chain, callers) && |callers| == |chain| && ActsForTop(st, chain, p)
    requires Enabled(src, st, Call(p, k))
    ensures a == Call(p, k)
    ensures Step(src, st, a).panicked || DepthFirst(src, Step(src, st, a), chain', callers')
  {
    var v := List(src, p)[k];
    a, callers' := Call(p, k), callers + [p];
    chain' := if v in st.phase then chain else chain + [v];
    if !Enter(src, st, p, k).panicked {
      if v in st.phase {
        CallsClosed(src, st, chain, callers, p, k);
      } else {
        CallsNew(src, st, chain, callers, p, k);
      }
    }
  }

  lemma TopGoesOn(src: Sources, st: State, chain: seq<Mod>, callers: seq<Proc>)
    returns (a: Action, chain': seq<Mod>, callers': seq<Proc>)
    requires Inv(src, st) && Complete(src) && DepthFirst(src, st, chain, callers) && !st.panicked
      && |callers| == |chain| > 0
    ensures Enabled(src, st, a)
    ensures Step(src, st, a).panicked || DepthFirst(src, Step(src, st, a), chain', callers')
  {
    var n := |chain| - 1;
    var t := chain[n];
    assert OnChain(src, st, chain, callers, n) && ModOk(src, st, t);
    chain', callers' := chain, callers;
    match st.phase[t]
    case Parsing =>
      if FilesDone(src, st, t) {
        a := Merge(t);
        PhasesDeep(src, st, chain, callers, a);
      } else {
        var i :| 0 <= i < |src.files[t]| && st.At(File(t, i)) != Next(|src.files[t][i]|);
        NotLoading(src, st, chain, callers, i);
        assert ProcOk(src, st, File(t, i));
        a, chain', callers' := CallsDeep(src, st, chain, callers, File(t, i), st.At(File(t, i)).k);
      }
    case Parsed =>
      a := Begin(t);
      LockFree(src, st, chain, callers);
      PhasesDeep(src, st, chain, callers, a);
    case Emitting =>
      a := End(t);
      PhasesDeep(src, st, chain, callers, a);
    case Emitted =>
      a, chain' := Close(t), chain[..n];
      ClosesDeep(src, st, chain, callers);
  }

  /** No file of the module at the top waits for an import. */
  lemma NotLoading(src: Sources, st: State, chain: seq<Mod>, callers: seq<Proc>, i: nat)
    requires DepthFirst(src, st, chain, callers) && |callers| == |chain| > 0
    ensures st.At(File(chain[|chain| - 1], i)).Next?
  {
  }

  lemma LockFree(src: Sources, st: State, chain: seq<Mod>, callers: seq<Proc>)
    requires Inv(src, st) && DepthFirst(src, st, chain, callers) && |callers| == |chain| > 0
    requires chain[|chain| - 1] in st.phase && st.phase[chain[|chain| - 1]] == Parsed
    ensures !st.lock
  {
    forall j | 0 <= j < |chain| ensures chain[j] in st.phase && st.phase[chain[j]] != Emitting {
      assert OnChain(src, st, chain, callers, j);
    }
  }

  lemma {:induction false} DeepRun(src: Sources, run: seq<State>, acts: seq<Action>, chain: seq<Mod>,
          callers: seq<Proc>)
    returns (run': seq<State>, acts': seq<Action>)
    requires IsRun(src, run, acts) && Complete(src)
    requires run[|acts|].panicked || DepthFirst(src, run[|acts|], chain, callers)
    ensures IsRun(src, run', acts') && (run'[|acts'|].panicked || Finished(src, run'[|acts'|]))
    decreases |Events(src)| - |acts|
  {
    var st := run[|acts|];
    RunsAreBounded(src, run, acts);
    if st.panicked || Finished(src, st) {
      run', acts' := run, acts;
    } else {
      Reached(src, run, acts, |acts|);
      hide IsRun, Complete, Finished, Enabled, Step, Events, DepthFirst, Inv;
      var a, chain', callers' := GoesDeeper(src, st, chain, callers);
      var run1, acts1 := run + [Step(src, st, a)], acts + [a];
      OneMore(src, run, acts, a);
      RunsAreBounded(src, run1, acts1);
      run', acts' := DeepRun(src, run1, acts1, chain', callers');
    }
  }

  /** The check of the father set fires in some order of loading if and only if the imports
      reachable from the roots form a cycle. */
  lemma PanicsExactlyWhenCyclic(src: Sources)
    requires Complete(src)
    ensures (exists run: seq<State>, acts :: IsRun(src, run, acts) && run[|acts|].panicked) <==> !Acyclic(src)
  {
    if run: seq<State>, acts :| IsRun(src, run, acts) && run[|acts|].panicked {
      forall rank ensures !Ranks(src, rank) {
        if Ranks(src, rank) { NeverPanics(src, run, acts, rank, |acts|); }
      }
    }
    if !Acyclic(src) {
      assert IsRun(src, [INIT], []) && DepthFirst(src, INIT, [], []);
      var run, acts := DeepRun(src, [INIT], [], [], []);
      if Finished(src, run[|acts|]) { FinishedMeansAcyclic(src, run, acts); }
    }
  }
  // ----- a cycle that is not found -----

  /** Module 0 has two files, one imports 1 and one imports 2; 1 and 2 import each other. */
  const CROSSED := Sources(map[0 := [[1], [2]], 1 := [[2]], 2 := [[1]]], [0])

  /** Each of the two has been asked for by a file of module 0 and waits for the other. */
  const HUNG := State(map[0 := Parsing, 1 := Parsing, 2 := Parsing],
    map[Root := Loading(0), File(0, 0) := Loading(0), File(0, 1) := Loading(0), File(1, 0) := Loading(0),
        File(2, 0) := Loading(0)],
    map[0 := {0}, 1 := {0, 1}, 2 := {0, 2}], false, [], [], false)

  /** The states on the way there. */
  function Crossing(n: nat): State {
    var phases := [map[], map[0 := Parsing], map[0 := Parsing, 1 := Parsing], HUNG.phase, HUNG.phase, HUNG.phase];
    var fathers := [map[], map[0 := {0}], map[0 := {0}, 1 := {0, 1}], HUNG.fathers, HUNG.fathers, HUNG.fathers];
    var places := [map[], map[Root := Loading(0)], map[Root := Loading(0), File(0, 0) := Loading(0)],
                   map[Root := Loading(0), File(0, 0) := Loading(0), File(0, 1) := Loading(0)],
                   map[Root := Loading(0), File(0, 0) := Loading(0), File(0, 1) := Loading(0),
                       File(1, 0) := Loading(0)], HUNG.place];
    if n < 6 then State(phases[n], places[n], fathers[n], false, [], [], false) else HUNG
  }

  const CROSSINGS := [Call(Root, 0), Call(File(0, 0), 0), Call(File(0, 1), 0), Call(File(1, 0), 0), Call(File(2, 0), 0)]

  lemma Crosses(n: nat)
    requires n < 5
    ensures Enabled(CROSSED, Crossing(n), CROSSINGS[n])
      && Step(CROSSED, Crossing(n), CROSSINGS[n]) == Crossing(n + 1)
  {
    var a, st, st' := CROSSINGS[n], Crossing(n), Crossing(n + 1);
    assert st.At(a.p) == Next(0) && |List(CROSSED, a.p)| == 1;
    assert st.place[a.p := Loading(0)] == st'.place;
    if n < 3 { StartsLoading(n); } else { assert List(CROSSED, a.p)[0] !in FathersOf(st, a.p); }
  }

  lemma StartsLoading(n: nat)
    requires n < 3
    ensures var p, st, st' := CROSSINGS[n].p, Crossing(n), Crossing(n + 1);
      var v, above := n, FathersOf(st, p);
      && List(CROSSED, p) == [v] && v !in above && v !in st.phase
      && st.phase[v := Parsing] == st'.phase && st.fathers[v := above + {v}] == st'.fathers
  {
    var p, st, st' := CROSSINGS[n].p, Crossing(n), Crossing(n + 1);
    assert FathersOf(st, p) + {n} == st'.fathers[n];
  }

  lemma HungForGood(a: Action)
    ensures !Enabled(CROSSED, HUNG, a)
  {
    assert forall m :: m in CROSSED.files ==> HUNG.At(File(m, 0)) == Loading(0) && |CROSSED.files[m][0]| == 1;
  }

  /** A cycle may also go unnoticed: loading can come to a state in which nothing has failed,
      nothing can go on and nothing is finished. */
  lemma CycleMayHang() returns (run: seq<State>, acts: seq<Action>)
    ensures Complete(CROSSED) && IsRun(CROSSED, run, acts)
    ensures var st := run[|acts|]; !st.panicked && !Finished(CROSSED, st) && !CanStep(CROSSED, st)
  {
    run, acts := seq(6, n requires 0 <= n < 6 => Crossing(n)), CROSSINGS;
    forall i | 0 <= i < 5 ensures Enabled(CROSSED, run[i], acts[i]) && run[i + 1] == Step(CROSSED, run[i], acts[i]) {
      Crosses(i);
    }
    forall a ensures !Enabled(CROSSED, HUNG, a) { HungForGood(a); }
    CrossedComplete();
  }

  lemma CrossedComplete()
    ensures Complete(CROSSED)
  {
    forall m | Reachable(CROSSED, m) ensures m in CROSSED.files && |CROSSED.files[m]| > 0 {
      var path :| IsPath(CROSSED, path) && path[|path| - 1] == m;
      if |path| > 1 { assert Imports(CROSSED, path[|path| - 2], path[|path| - 2 + 1]); }
    }
  }
}
