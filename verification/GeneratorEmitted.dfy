/** What the emitted code does, said over the source. It is direct execution but
    for one thing: the end of an if or else body that no branch joins to the rest. */
module GeneratorEmitted {
  import opened GeneratorSyntax
  import D = GeneratorDirect

  /** Where emission stands at the end of a list: still in its first block, in a block that
      nothing closes, or in the end block of an `if`, which leads to the parent scope's block. */
  datatype Ending = Same | Unclosed | ToParent

  function EndingOfStmt(s: Stmt): Ending {
    match s
    case Yield(_) => Unclosed
    case For(_, _, _) => Unclosed
    case If(_, _) => ToParent
    case IfElse(_, _, _) => ToParent
    case _ => Same
  }

  function EndingOf(ss: seq<Stmt>): Ending {
    if ss == [] then Same
    else if EndingOf(ss[1..]) != Same then EndingOf(ss[1..])
    else EndingOfStmt(ss[0])
  }

  /** Where control goes at the end of a body: to the rest, nowhere, or back to the start
      of the block that holds the `if`, with the statements that block begins with. */
  datatype Fall = Joined | Nowhere | Rerun(ss: seq<Stmt>, env: Env)

  /** A direct execution together with where its current block starts and, for each
      frame, where the body being executed falls to. */
  datatype Tracked = Tracked(c: D.Config, start: seq<Stmt>, startEnv: Env, falls: seq<Fall>)
  {
    predicate Valid() { |falls| == |c.k| }
  }

  datatype Outcome = Going(x: Tracked) | Yielded(x: Tracked) | Ended(x: Tracked) | Hung
  {
    predicate Answers() { Yielded? || Ended? }
  }

  function FallOf(x: Tracked, s: Stmt): Fall {
    match s
    case If(_, thn) =>
      (match EndingOf(thn)
       case Same => Joined
       case Unclosed => Nowhere
       case ToParent => Rerun(x.start, x.startEnv))
    case IfElse(e, thn, els) =>
      var branch := if Eval(e, x.c.env, x.c.store) != 0 then thn else els;
      if EndingOf(branch).Unclosed? then Nowhere else Joined
    case _ => Joined
  }

  /** The bookkeeping for one step of direct execution from `x` to `c`. */
  function Track(x: Tracked, c: D.Config): (r: Tracked)
    requires x.Valid()
  {
    if x.c.ss != [] && EndingOfStmt(x.c.ss[0]).Same? then x.(c := c)
    else if |c.k| > |x.c.k| then
      Tracked(c, c.ss, c.env, [if x.c.ss != [] then FallOf(x, x.c.ss[0]) else Joined] + x.falls)
    else Tracked(c, c.ss, c.env, x.falls[|x.falls| - |c.k|..])
  }

  /** At the end of a body that nothing joins to the rest. */
  predicate FallsOff(x: Tracked) {
    x.c.ss == [] && x.falls != [] && x.falls[0] != Joined
  }

  /** One step of direct execution, tracked. */
  function DirectStep(x: Tracked): (o: Outcome)
    requires x.Valid()
    ensures !o.Hung? && o.x.Valid()
  {
    match D.Step(x.c)
    case Going(c) => Going(Track(x, c))
    case Yielded(c) => Yielded(Track(x, c))
    case Ended(c) => Ended(Track(x, c))
  }

  /** One step as the emitted code takes it. */
  function Step(x: Tracked): (o: Outcome)
    requires x.Valid()
    ensures !o.Hung? ==> o.x.Valid()
  {
    if FallsOff(x) then
      (match x.falls[0]
       case Rerun(ss, env) => Going(Tracked(x.c.(ss := ss, env := env, k := x.c.k[1..]), ss, env, x.falls[1..]))
       case _ => Hung)
    else DirectStep(x)
  }

  /** Runs until the next yield or the end, for at most `n` steps. */
  function Run(x: Tracked, n: nat): (o: Outcome)
    requires x.Valid()
    ensures !o.Hung? ==> o.x.Valid()
    decreases n
  {
    if n == 0 then Going(x)
    else match Step(x)
         case Going(x1) => Run(x1, n - 1)
         case o => o
  }

  /** The first `n` steps, or those up to the next yield or the end, never fall off. */
  predicate Joins(x: Tracked, n: nat)
    requires x.Valid()
    decreases n
  {
    n == 0 || (!FallsOff(x) && match Step(x)
                               case Going(x1) => Joins(x1, n - 1)
                               case _ => true)
  }

  function Start(p: Program, args: seq<int>): (x: Tracked)
    requires |args| == |p.params|
    ensures x.Valid()
  {
    var c := D.Start(p, args);
    Tracked(c, c.ss, c.env, [])
  }

  /** A run that never falls off is a direct execution. */
  lemma {:induction false} JoinedIsDirect(x: Tracked, n: nat)
    requires x.Valid() && Joins(x, n)
    ensures match Run(x, n)
      case Going(y) => D.Run(x.c, n) == D.Going(y.c)
      case Yielded(y) => D.Run(x.c, n) == D.Yielded(y.c)
      case Ended(y) => D.Run(x.c, n) == D.Ended(y.c)
      case Hung => false
    decreases n
  {
    if n > 0 && Step(x).Going? { JoinedIsDirect(Step(x).x, n - 1); }
  }
}
