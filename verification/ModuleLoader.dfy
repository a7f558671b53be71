/** Loading modules: one process per source file, each loading its imports in
    turn; a module is loaded by whoever asks first, everyone else waits for its
    channel to close; modules are emitted one at a time under a lock. */
module ModuleLoader {

  type Mod = nat

  /** The import lists of each module's files, and the modules the compiler asks for itself. */
  datatype Sources = Sources(files: map<Mod, seq<seq<Mod>>>, roots: seq<Mod>)

  /** Who is loading: the compiler's own call sequence, or the goroutine of one file. */
  datatype Proc = Root | File(m: Mod, i: nat)

  /** Before import `k`, or inside ParseModule for it. */
  datatype Place = Next(k: nat) | Loading(k: nat)

  datatype Phase = Parsing | Parsed | Emitting | Emitted | Closed

  datatype State = State(
    phase: map<Mod, Phase>,          // keys: the modules in startMap
    place: map<Proc, Place>,
    fathers: map<Mod, set<Mod>>,
    lock: bool,                      // emitMu
    begun: seq<Mod>, ended: seq<Mod>,
    panicked: bool)
  {
    function At(p: Proc): Place { if p in place then place[p] else Next(0) }
  }

  datatype Action =
    | Call(p: Proc, k: nat)          // enter ParseModule for the k-th import
    | Return(p: Proc, k: nat)        // its channel is closed
    | Merge(m: Mod)                  // all files parsed
    | Begin(m: Mod) | End(m: Mod)    // emission, holding emitMu
    | Close(m: Mod)                  // close the channel

  function List(src: Sources, p: Proc): seq<Mod> {
    match p
    case Root => src.roots
    case File(m, i) => if m in src.files && i < |src.files[m]| then src.files[m][i] else []
  }

  predicate Exists(st: State, p: Proc) { p.Root? || p.m in st.phase }

  predicate FilesDone(src: Sources, st: State, m: Mod) {
    m in src.files && forall i :: 0 <= i < |src.files[m]| ==> st.At(File(m, i)) == Next(|src.files[m][i]|)
  }

  predicate IsClosed(st: State, m: Mod) { m in st.phase && st.phase[m] == Closed }

  predicate Enabled(src: Sources, st: State, a: Action) {
    !st.panicked &&
    match a
    case Call(p, k) => Exists(st, p) && k < |List(src, p)| && st.At(p) == Next(k)
    case Return(p, k) => Exists(st, p) && k < |List(src, p)| && st.At(p) == Loading(k) && IsClosed(st, List(src, p)[k])
    case Merge(m) => m in st.phase && st.phase[m] == Parsing && FilesDone(src, st, m)
    case Begin(m) => m in st.phase && st.phase[m] == Parsed && !st.lock
    case End(m) => m in st.phase && st.phase[m] == Emitting
    case Close(m) => m in st.phase && st.phase[m] == Emitted
  }

  function FathersOf(st: State, p: Proc): set<Mod> {
    match p
    case Root => {}
    case File(m, _) => if m in st.fathers then st.fathers[m] else {}
  }

  /** ParseModule up to the point where it starts the loader or begins to wait. */
  function Enter(src: Sources, st: State, p: Proc, k: nat): State
    requires k < |List(src, p)|
  {
    var v := List(src, p)[k];
    if v in FathersOf(st, p) then st.(panicked := true)
    else
      var st1 := st.(place := st.place[p := Loading(k)]);
      if v in st.phase then st1
      else st1.(phase := st.phase[v := Parsing], fathers := st.fathers[v := FathersOf(st, p) + {v}])
  }

  function Step(src: Sources, st: State, a: Action): State
    requires Enabled(src, st, a)
  {
    match a
    case Call(p, k) => Enter(src, st, p, k)
    case Return(p, k) => st.(place := st.place[p := Next(k + 1)])
    case Merge(m) => st.(phase := st.phase[m := Parsed])
    case Begin(m) => st.(phase := st.phase[m := Emitting], lock := true, begun := st.begun + [m])
    case End(m) => st.(phase := st.phase[m := Emitted], lock := false, ended := st.ended + [m])
    case Close(m) => st.(phase := st.phase[m := Closed])
  }

  const INIT := State(map[], map[], map[], false, [], [], false)

  ghost predicate IsRun(src: Sources, run: seq<State>, acts: seq<Action>) {
    && |run| == |acts| + 1 && run[0] == INIT
    && forall i {:trigger acts[i]} :: 0 <= i < |acts| ==>
      Enabled(src, run[i], acts[i]) && run[i + 1] == Step(src, run[i], acts[i])
  }

  predicate Finished(src: Sources, st: State) { st.At(Root) == Next(|src.roots|) }

  ghost predicate CanStep(src: Sources, st: State) { exists a :: Enabled(src, st, a) }

  // ----- the import graph -----

  ghost predicate Imports(src: Sources, m: Mod, v: Mod) {
    exists i: nat :: m in src.files && i < |src.files[m]| && v in src.files[m][i]
  }

  ghost predicate IsPath(src: Sources, path: seq<Mod>) {
    && |path| > 0 && path[0] in src.roots
    && forall i :: 0 <= i < |path| - 1 ==> Imports(src, path[i], path[i + 1])
  }

  ghost predicate Reachable(src: Sources, m: Mod) {
    exists path :: IsPath(src, path) && path[|path| - 1] == m
  }

  /** Every module asked for has source files. */
  ghost predicate Complete(src: Sources) {
    forall m :: Reachable(src, m) ==> m in src.files && |src.files[m]| > 0
  }

  ghost predicate Ranks(src: Sources, rank: map<Mod, nat>) {
    forall m, v :: Reachable(src, m) && Imports(src, m, v) ==> m in rank && v in rank && rank[v] < rank[m]
  }

  ghost predicate Acyclic(src: Sources) { exists rank :: Ranks(src, rank) }

  lemma ReachableRoot(src: Sources, k: nat)
    requires k < |src.roots|
    ensures Reachable(src, src.roots[k])
  {
    assert IsPath(src, [src.roots[k]]);
  }

  lemma ReachableImport(src: Sources, m: Mod, v: Mod)
    requires Reachable(src, m) && Imports(src, m, v)
    ensures Reachable(src, v)
  {
    var path :| IsPath(src, path) && path[|path| - 1] == m;
    var longer := path + [v];
    forall i | 0 <= i < |longer| - 1 ensures Imports(src, longer[i], longer[i + 1]) {
      if i < |path| - 1 { assert longer[i] == path[i] && longer[i + 1] == path[i + 1]; }
    }
    assert IsPath(src, longer);
  }

  // ----- what every step keeps -----

  ghost predicate ProcOk(src: Sources, st: State, p: Proc) {
    var l, x := List(src, p), st.At(p);
    && (!Exists(st, p) ==> x == Next(0))
    && x.k <= |l| && (x.Loading? ==> x.k < |l| && l[x.k] in st.phase)
    && (forall j :: 0 <= j < x.k ==> IsClosed(st, l[j]))
  }

  ghost predicate ModOk(src: Sources, st: State, m: Mod)
    requires m in st.phase
  {
    var x := st.phase[m];
    && Reachable(src, m)
    && (x != Parsing ==> FilesDone(src, st, m))
    && (m in st.begun <==> x == Emitting || x == Emitted || x == Closed)
    && (m in st.ended <==> x == Emitted || x == Closed)
    && (x == Emitting ==> st.lock)
    && m in st.fathers
  }

  ghost predicate OrderOk(src: Sources, st: State) {
    && (st.lock ==>
          |st.begun| > 0 && st.begun[|st.begun| - 1] in st.phase && st.phase[st.begun[|st.begun| - 1]] == Emitting
          && st.ended == st.begun[..|st.begun| - 1])
    && (!st.lock ==> st.ended == st.begun)
    && (forall i :: 0 <= i < |st.begun| ==> st.begun[i] in st.phase)
    && (forall i, j :: 0 <= i < j < |st.begun| ==> st.begun[i] != st.begun[j])
    && (forall i, v :: 0 <= i < |st.begun| && Imports(src, st.begun[i], v) ==> v in st.begun[..i])
  }

  ghost predicate Inv(src: Sources, st: State) {
    && (forall p :: ProcOk(src, st, p))
    && (forall m :: m in st.phase ==> ModOk(src, st, m))
    && OrderOk(src, st)
  }

  lemma CallProcs(src: Sources, st: State, p: Proc, k: nat)
    requires Enabled(src, st, Call(p, k)) && forall q :: ProcOk(src, st, q)
    ensures forall q :: ProcOk(src, Enter(src, st, p, k), q)
  {
    var st' := Enter(src, st, p, k);
    forall q ensures ProcOk(src, st', q) { assert ProcOk(src, st, q); }
  }

  lemma CallMod(src: Sources, st: State, p: Proc, k: nat, m: Mod)
    requires Enabled(src, st, Call(p, k)) && m in st.phase && ModOk(src, st, m)
    ensures m in Enter(src, st, p, k).phase && ModOk(src, Enter(src, st, p, k), m)
  {
  }

  lemma CallMods(src: Sources, st: State, p: Proc, k: nat)
    requires Enabled(src, st, Call(p, k)) && Reachable(src, List(src, p)[k]) && OrderOk(src, st)
    requires forall m :: m in st.phase ==> ModOk(src, st, m)
    ensures forall m :: m in Enter(src, st, p, k).phase ==> ModOk(src, Enter(src, st, p, k), m)
  {
    var st' := Enter(src, st, p, k);
    forall m | m in st'.phase ensures ModOk(src, st', m) {
      if m in st.phase { CallMod(src, st, p, k, m); }
    }
  }

  lemma CallKeeps(src: Sources, st: State, p: Proc, k: nat)
    requires Inv(src, st) && Enabled(src, st, Call(p, k))
    ensures Inv(src, Enter(src, st, p, k))
  {
    var v := List(src, p)[k];
    assert Reachable(src, v) by {
      if p.Root? { ReachableRoot(src, k); } else { assert Imports(src, p.m, v); ReachableImport(src, p.m, v); }
    }
    CallProcs(src, st, p, k);
    CallMods(src, st, p, k);
  }

  lemma ReturnKeeps(src: Sources, st: State, p: Proc, k: nat)
    requires Inv(src, st) && Enabled(src, st, Return(p, k))
    ensures Inv(src, Step(src, st, Return(p, k)))
  {
    var st' := Step(src, st, Return(p, k));
    forall q ensures ProcOk(src, st', q) { assert ProcOk(src, st, q); }
    forall m | m in st'.phase ensures ModOk(src, st', m) { assert ModOk(src, st, m); }
  }

  /** A module whose files are parsed has all its imports closed. */
  lemma ImportsClosed(src: Sources, st: State, m: Mod, v: Mod)
    requires Inv(src, st) && FilesDone(src, st, m) && Imports(src, m, v)
    ensures IsClosed(st, v)
  {
    var i: nat :| m in src.files && i < |src.files[m]| && v in src.files[m][i];
    assert ProcOk(src, st, File(m, i));
  }

  lemma PhaseKeeps(src: Sources, st: State, a: Action)
    requires Inv(src, st) && Enabled(src, st, a) && (a.Merge? || a.End? || a.Close?)
    ensures Inv(src, Step(src, st, a))
  {
    ProcsKept(src, st, a);
    ModsKept(src, st, a);
    hide ProcOk, ModOk;
    PhaseOrder(src, st, a);
  }

  lemma ProcsKept(src: Sources, st: State, a: Action)
    requires Enabled(src, st, a) && !a.Call? && !a.Return? && forall q :: ProcOk(src, st, q)
    ensures forall q :: ProcOk(src, Step(src, st, a), q)
  {
    forall q ensures ProcOk(src, Step(src, st, a), q) { assert ProcOk(src, st, q); }
  }

  lemma ModsKept(src: Sources, st: State, a: Action)
    requires Enabled(src, st, a) && !a.Call? && !a.Return? && OrderOk(src, st)
    requires forall m :: m in st.phase ==> ModOk(src, st, m)
    ensures forall m :: m in Step(src, st, a).phase ==> ModOk(src, Step(src, st, a), m)
  {
    var st' := Step(src, st, a);
    forall m | m in st'.phase ensures ModOk(src, st', m) { assert ModOk(src, st, m); }
  }

  lemma PhaseOrder(src: Sources, st: State, a: Action)
    requires Inv(src, st) && Enabled(src, st, a) && (a.Merge? || a.End? || a.Close?)
    ensures OrderOk(src, Step(src, st, a))
  {
  }

  lemma BeginKeeps(src: Sources, st: State, m: Mod)
    requires Inv(src, st) && Enabled(src, st, Begin(m))
    ensures Inv(src, Step(src, st, Begin(m)))
  {
    ProcsKept(src, st, Begin(m));
    ModsKept(src, st, Begin(m));
    hide ProcOk, ModOk;
    BeginOrder(src, st, m);
  }

  /** A module begins after everything it imports. */
  lemma BeginOrder(src: Sources, st: State, m: Mod)
    requires Inv(src, st) && Enabled(src, st, Begin(m))
    ensures OrderOk(src, Step(src, st, Begin(m)))
  {
    var st', n := Step(src, st, Begin(m)), |st.begun|;
    assert m !in st.begun by { assert ModOk(src, st, m); }
    forall i, v | 0 <= i < n + 1 && Imports(src, st'.begun[i], v) ensures v in st'.begun[..i] {
      assert st'.begun[..n] == st.begun;
      if i < n {
        assert st'.begun[..i] == st.begun[..i];
      } else {
        ImportsClosed(src, st, m, v);
        assert ModOk(src, st, v);
      }
    }
  }

  lemma StepKeeps(src: Sources, st: State, a: Action)
    requires Inv(src, st) && Enabled(src, st, a)
    ensures Inv(src, Step(src, st, a))
  {
    match a
    case Call(p, k) => CallKeeps(src, st, p, k);
    case Return(p, k) => ReturnKeeps(src, st, p, k);
    case Begin(m) => BeginKeeps(src, st, m);
    case _ => PhaseKeeps(src, st, a);
  }

  lemma {:induction false} Reached(src: Sources, run: seq<State>, acts: seq<Action>, i: nat)
    requires IsRun(src, run, acts) && i < |run|
    ensures Inv(src, run[i])
  {
    if i == 0 {
      assert forall p :: ProcOk(src, INIT, p);
    } else {
      Reached(src, run, acts, i - 1);
      StepKeeps(src, run[i - 1], acts[i - 1]);
    }
  }

  // ----- acyclic graphs: no panic, no deadlock -----

  /** A module's fathers are itself and modules above it. */
  ghost predicate FathersAbove(st: State, rank: map<Mod, nat>) {
    forall m, f {:trigger f in st.fathers[m]} :: m in st.fathers && f in st.fathers[m] ==>
      f == m || Below(rank, m, f)
  }

  predicate Below(rank: map<Mod, nat>, m: Mod, f: Mod) { m in rank && f in rank && rank[m] < rank[f] }

  lemma FathersKept(src: Sources, st: State, a: Action, rank: map<Mod, nat>)
    requires Inv(src, st) && Enabled(src, st, a) && Ranks(src, rank) && FathersAbove(st, rank) && !st.panicked
    ensures FathersAbove(Step(src, st, a), rank) && !Step(src, st, a).panicked
  {
    if a.Call? {
      var v := List(src, a.p)[a.k];
      FathersOfCaller(src, st, a.p, a.k, rank);
      hide Inv, Ranks, FathersAbove;
      var st' := Enter(src, st, a.p, a.k);
      assert v !in FathersOf(st, a.p);
      forall m, f | m in st'.fathers && f in st'.fathers[m] ensures f == m || Below(rank, m, f) {
        if m in st.fathers && f in st.fathers[m] { AboveAt(st, rank, m, f); }
      }
      AboveAll(st', rank);
    }
  }

  lemma AboveAt(st: State, rank: map<Mod, nat>, m: Mod, f: Mod)
    requires FathersAbove(st, rank) && m in st.fathers && f in st.fathers[m]
    ensures f == m || Below(rank, m, f)
  {
  }

  lemma AboveAll(st: State, rank: map<Mod, nat>)
    requires forall m, f {:trigger f in st.fathers[m]} :: m in st.fathers && f in st.fathers[m] ==>
      f == m || Below(rank, m, f)
    ensures FathersAbove(st, rank)
  {
  }

  /** The module asked for is below all fathers of the file that asks. */
  lemma FathersOfCaller(src: Sources, st: State, p: Proc, k: nat, rank: map<Mod, nat>)
    requires Inv(src, st) && Enabled(src, st, Call(p, k)) && Ranks(src, rank) && FathersAbove(st, rank)
    ensures var v := List(src, p)[k]; forall f :: f in FathersOf(st, p) ==> f != v && Below(rank, v, f)
  {
    if p.File? {
      var m, v := p.m, List(src, p)[k];
      assert Imports(src, m, v) && ModOk(src, st, m);
      assert rank[v] < rank[m];
      hide Inv, ModOk, Ranks;
      forall f | f in FathersOf(st, p) ensures Below(rank, v, f) { AboveAt(st, rank, m, f); }
    }
  }

  lemma {:induction false} NeverPanics(src: Sources, run: seq<State>, acts: seq<Action>, rank: map<Mod, nat>, i: nat)
    requires IsRun(src, run, acts) && i < |run| && Ranks(src, rank)
    ensures FathersAbove(run[i], rank) && !run[i].panicked
  {
    if i > 0 {
      NeverPanics(src, run, acts, rank, i - 1);
      Reached(src, run, acts, i - 1);
      FathersKept(src, run[i - 1], acts[i - 1], rank);
    }
  }

  /** As long as a started module is not closed, something can move. */
  lemma {:induction false} Advances(src: Sources, st: State, m: Mod, rank: map<Mod, nat>) returns (a: Action)
    requires Inv(src, st) && Complete(src) && Ranks(src, rank) && !st.panicked
    requires m in st.phase && st.phase[m] != Closed
    ensures Enabled(src, st, a)
    decreases if m in rank then rank[m] else 0
  {
    assert ModOk(src, st, m);
    match st.phase[m]
    case Emitting => a := End(m);
    case Emitted => a := Close(m);
    case Parsed => a := if st.lock then End(st.begun[|st.begun| - 1]) else Begin(m);
    case Parsing =>
      if FilesDone(src, st, m) {
        a := Merge(m);
      } else {
        var i :| 0 <= i < |src.files[m]| && st.At(File(m, i)) != Next(|src.files[m][i]|);
        a := ProcAdvances(src, st, File(m, i), rank);
      }
  }

  lemma {:induction false} ProcAdvances(src: Sources, st: State, p: Proc, rank: map<Mod, nat>) returns (a: Action)
    requires Inv(src, st) && Complete(src) && Ranks(src, rank) && !st.panicked && Exists(st, p)
    requires p.File? && st.At(p) != Next(|List(src, p)|)
    ensures Enabled(src, st, a)
    decreases if p.m in rank then rank[p.m] else 0, 0
  {
    assert ProcOk(src, st, p);
    var k := st.At(p).k;
    if st.At(p).Next? {
      a := Call(p, k);
    } else {
      var v := List(src, p)[k];
      assert ModOk(src, st, p.m) && Imports(src, p.m, v);
      if IsClosed(st, v) { a := Return(p, k); } else { a := Advances(src, st, v, rank); }
    }
  }

  lemma RootAdvances(src: Sources, st: State, rank: map<Mod, nat>) returns (a: Action)
    requires Inv(src, st) && Complete(src) && Ranks(src, rank) && !st.panicked && !Finished(src, st)
    ensures Enabled(src, st, a)
  {
    assert ProcOk(src, st, Root);
    var k := st.At(Root).k;
    if st.At(Root).Next? {
      a := Call(Root, k);
    } else if IsClosed(st, src.roots[k]) {
      a := Return(Root, k);
    } else {
      a := Advances(src, st, src.roots[k], rank);
    }
  }

  // ----- every run is finite -----

  /** Everything that can ever happen. */
  function Events(src: Sources): set<Action> {
    (set m, i, k | m in src.files && 0 <= i < |src.files[m]| && 0 <= k < |src.files[m][i]| :: Call(File(m, i), k))
    + (set m, i, k | m in src.files && 0 <= i < |src.files[m]| && 0 <= k < |src.files[m][i]| :: Return(File(m, i), k))
    + (set k | 0 <= k < |src.roots| :: Call(Root, k)) + (set k | 0 <= k < |src.roots| :: Return(Root, k))
    + (set m | m in src.files :: Merge(m)) + (set m | m in src.files :: Begin(m))
    + (set m | m in src.files :: End(m)) + (set m | m in src.files :: Close(m))
  }

  /** Action `a` lies behind and cannot happen again. */
  predicate Spent(st: State, a: Action) {
    match a
    case Call(p, k) => st.panicked || st.At(p).k > k || st.At(p) == Loading(k)
    case Return(p, k) => st.At(p).k > k
    case Merge(m) => m in st.phase && !st.phase[m].Parsing?
    case Begin(m) => m in st.phase && !st.phase[m].Parsing? && !st.phase[m].Parsed?
    case End(m) => m in st.phase && (st.phase[m].Emitted? || st.phase[m].Closed?)
    case Close(m) => m in st.phase && st.phase[m].Closed?
  }

  lemma SpentStays(src: Sources, st: State, a: Action, b: Action)
    requires Enabled(src, st, a)
    ensures Spent(st, b) ==> Spent(Step(src, st, a), b)
    ensures !Spent(st, a) && Spent(Step(src, st, a), a)
  {
  }

  lemma {:induction false} HappenOnce(src: Sources, run: seq<State>, acts: seq<Action>, i: nat, j: nat)
    requires IsRun(src, run, acts) && i < j <= |acts|
    ensures Spent(run[j], acts[i])
    decreases j
  {
    if j == i + 1 {
      SpentStays(src, run[i], acts[i], acts[i]);
    } else {
      HappenOnce(src, run, acts, i, j - 1);
      SpentStays(src, run[j - 1], acts[j - 1], acts[i]);
    }
  }

  lemma HappensInEvents(src: Sources, st: State, a: Action)
    requires Inv(src, st) && Complete(src) && Enabled(src, st, a)
    ensures a in Events(src)
  {
    match a
    case Call(p, k) => if p.File? { assert ModOk(src, st, p.m); }
    case Return(p, k) => if p.File? { assert ModOk(src, st, p.m); }
    case Merge(m) => assert ModOk(src, st, m);
    case Begin(m) => assert ModOk(src, st, m);
    case End(m) => assert ModOk(src, st, m);
    case Close(m) => assert ModOk(src, st, m);
  }

  lemma {:induction false} DistinctWithin<T>(s: seq<T>, u: set<T>)
    requires forall i :: 0 <= i < |s| ==> s[i] in u
    requires forall i, j :: 0 <= i < j < |s| ==> s[i] != s[j]
    ensures |s| <= |u|
  {
    if s != [] {
      var n := |s| - 1;
      DistinctWithin(s[..n], u - {s[n]});
    }
  }

  /** No run is longer than the number of things that can happen. */
  lemma RunsAreBounded(src: Sources, run: seq<State>, acts: seq<Action>)
    requires IsRun(src, run, acts) && Complete(src)
    ensures |acts| <= |Events(src)|
  {
    forall i, j | 0 <= i < j < |acts| ensures acts[i] != acts[j] {
      HappenOnce(src, run, acts, i, j);
      SpentStays(src, run[j], acts[j], acts[j]);
    }
    forall i | 0 <= i < |acts| ensures acts[i] in Events(src) {
      Reached(src, run, acts, i);
      HappensInEvents(src, run[i], acts[i]);
    }
    DistinctWithin(acts, Events(src));
  }

  // ----- the main results -----

  /** The modules whose emission has begun, in order. */
  function Begins(acts: seq<Action>): seq<Mod> {
    if acts == [] then []
    else
      var a := acts[|acts| - 1];
      Begins(acts[..|acts| - 1]) + if a.Begin? then [a.m] else []
  }

  /** The modules whose emission has ended, in order. */
  function Ends(acts: seq<Action>): seq<Mod> {
    if acts == [] then []
    else
      var a := acts[|acts| - 1];
      Ends(acts[..|acts| - 1]) + if a.End? then [a.m] else []
  }

  lemma {:induction false} HistoryTells(src: Sources, run: seq<State>, acts: seq<Action>)
    requires IsRun(src, run, acts)
    ensures run[|acts|].begun == Begins(acts) && run[|acts|].ended == Ends(acts)
  {
    var n := |acts|;
    if n > 0 {
      HistoryTells(src, run[..n], acts[..n - 1]);
      assert Enabled(src, run[n - 1], acts[n - 1]);
    }
  }

  /** Over any run: no two emissions overlap, no module is emitted twice, and each
      begins only after all its imports have ended. */
  lemma EmissionsInOrder(src: Sources, run: seq<State>, acts: seq<Action>)
    requires IsRun(src, run, acts)
    ensures Ends(acts) <= Begins(acts) && |Begins(acts)| <= |Ends(acts)| + 1
    ensures forall a, b :: 0 <= a < b < |Begins(acts)| ==> Begins(acts)[a] != Begins(acts)[b]
    ensures forall a, v :: 0 <= a < |Begins(acts)| && Imports(src, Begins(acts)[a], v) ==>
      a <= |Ends(acts)| && v in Ends(acts)[..a]
  {
    Reached(src, run, acts, |acts|);
    InOrder(src, run[|acts|]);
    HistoryTells(src, run, acts);
    hide Inv, IsRun, Begins, Ends, Imports;
  }

  lemma InOrder(src: Sources, st: State)
    requires Inv(src, st)
    ensures st.ended <= st.begun && |st.begun| <= |st.ended| + 1
    ensures forall a, b :: 0 <= a < b < |st.begun| ==> st.begun[a] != st.begun[b]
    ensures forall a, v :: 0 <= a < |st.begun| && Imports(src, st.begun[a], v) ==>
      a <= |st.ended| && v in st.ended[..a]
  {
    forall a, v | 0 <= a < |st.begun| && Imports(src, st.begun[a], v) ensures v in st.ended[..a] {
      assert st.ended[..a] == st.begun[..a];
    }
  }

  /** Whoever asks for a module goes on only once it has been emitted. */
  lemma GoesOnAfterEmission(src: Sources, run: seq<State>, acts: seq<Action>, i: nat)
    requires IsRun(src, run, acts) && i < |acts| && acts[i].Return?
    ensures acts[i].k < |List(src, acts[i].p)| && List(src, acts[i].p)[acts[i].k] in Ends(acts[..i])
  {
    Reached(src, run, acts, i);
    HistoryTells(src, run[..i + 1], acts[..i]);
    assert ModOk(src, run[i], List(src, acts[i].p)[acts[i].k]);
  }

  /** On an acyclic graph no run panics, gets stuck or goes on forever. */
  lemma AcyclicNeverStuck(src: Sources, run: seq<State>, acts: seq<Action>)
    requires IsRun(src, run, acts) && Complete(src) && Acyclic(src)
    ensures var st := run[|acts|]; !st.panicked && (Finished(src, st) || CanStep(src, st))
    ensures |acts| <= |Events(src)|
  {
    var rank :| Ranks(src, rank);
    NeverPanics(src, run, acts, rank, |acts|);
    Reached(src, run, acts, |acts|);
    RunsAreBounded(src, run, acts);
    if !Finished(src, run[|acts|]) { var a := RootAdvances(src, run[|acts|], rank); }
  }

  lemma {:induction false} PathClosed(src: Sources, st: State, path: seq<Mod>)
    requires Inv(src, st) && Finished(src, st) && IsPath(src, path)
    ensures IsClosed(st, path[|path| - 1])
    decreases |path|
  {
    var n := |path| - 1;
    if n == 0 {
      assert ProcOk(src, st, Root);
    } else {
      var shorter := path[..n];
      forall i | 0 <= i < n - 1 ensures Imports(src, shorter[i], shorter[i + 1]) {
        assert shorter[i] == path[i] && shorter[i + 1] == path[i + 1];
      }
      PathClosed(src, st, shorter);
      assert ModOk(src, st, path[n - 1]) && Imports(src, path[n - 1], path[n]);
      ImportsClosed(src, st, path[n - 1], path[n]);
    }
  }

  /** A finished run has emitted exactly the modules reachable from the roots. */
  lemma FinishedEmitsAll(src: Sources, run: seq<State>, acts: seq<Action>, m: Mod)
    requires IsRun(src, run, acts) && Finished(src, run[|acts|])
    ensures m in Ends(acts) <==> Reachable(src, m)
  {
    var st := run[|acts|];
    Reached(src, run, acts, |acts|);
    HistoryTells(src, run, acts);
    if Reachable(src, m) {
      var path :| IsPath(src, path) && path[|path| - 1] == m;
      PathClosed(src, st, path);
      assert ModOk(src, st, m);
    }
  }

  function IndexOf(s: seq<Mod>, m: Mod): (k: nat)
    requires m in s
    ensures k < |s| && s[k] == m
  {
    if s[0] == m then 0 else 1 + IndexOf(s[1..], m)
  }

  lemma FinishedMeansAcyclic(src: Sources, run: seq<State>, acts: seq<Action>)
    requires IsRun(src, run, acts) && Finished(src, run[|acts|])
    ensures Acyclic(src)
  {
    var st := run[|acts|];
    var rank := map m | m in st.begun :: IndexOf(st.begun, m);
    Reached(src, run, acts, |acts|);
    EmissionsInOrder(src, run, acts);
    HistoryTells(src, run, acts);
    forall m, v | Reachable(src, m) && Imports(src, m, v) ensures m in rank && v in rank && rank[v] < rank[m] {
      FinishedEmitsAll(src, run, acts, m);
      assert m in st.begun;
      assert v in st.ended[..rank[m]];
      var j :| 0 <= j < rank[m] && st.ended[j] == v;
      assert st.begun[j] == v;
    }
    assert Ranks(src, rank);
  }

  lemma OneMore(src: Sources, run: seq<State>, acts: seq<Action>, a: Action)
    requires IsRun(src, run, acts) && Enabled(src, run[|acts|], a)
    ensures IsRun(src, run + [Step(src, run[|acts|], a)], acts + [a])
  {
  }

  lemma {:induction false} SomeRunFinishes(src: Sources, run: seq<State>, acts: seq<Action>)
    returns (run': seq<State>, acts': seq<Action>)
    requires IsRun(src, run, acts) && Complete(src) && Acyclic(src)
    ensures IsRun(src, run', acts') && Finished(src, run'[|acts'|])
    decreases |Events(src)| - |acts|
  {
    AcyclicNeverStuck(src, run, acts);
    if Finished(src, run[|acts|]) {
      run', acts' := run, acts;
    } else {
      var a :| Enabled(src, run[|acts|], a);
      var run1, acts1 := run + [Step(src, run[|acts|], a)], acts + [a];
      OneMore(src, run, acts, a);
      hide IsRun, Acyclic, Complete, Finished, Enabled, Step, Events;
      RunsAreBounded(src, run1, acts1);
      run', acts' := SomeRunFinishes(src, run1, acts1);
    }
  }

  /** Loading can finish exactly when the imports reachable from the roots are acyclic. */
  lemma FinishesExactlyWhenAcyclic(src: Sources)
    requires Complete(src)
    ensures (exists run, acts :: IsRun(src, run, acts) && Finished(src, run[|acts|])) <==> Acyclic(src)
  {
    if Acyclic(src) {
      assert IsRun(src, [INIT], []);
      var run, acts := SomeRunFinishes(src, [INIT], []);
    }
    forall run, acts | IsRun(src, run, acts) && Finished(src, run[|acts|]) ensures Acyclic(src) {
      FinishedMeansAcyclic(src, run, acts);
    }
  }
}
