/** Direct execution of a generator body: statement by statement over one cell
    for each declaration, stopping at each yield. A cell starts at zero and
    declaring its variable again, as a loop body does, leaves it alone. */
module GeneratorDirect {
  import opened Wrappers
  import opened GeneratorSyntax

  /** What follows the statement list being executed. */
  datatype Frame =
    | Leave(rest: seq<Stmt>, env: Env)
    | Again(test: Option<Exp>, step: Option<(string, Exp)>, body: seq<Stmt>, rest: seq<Stmt>, env: Env)

  datatype Config = Config(ss: seq<Stmt>, env: Env, k: seq<Frame>, store: Store, current: int)

  datatype Outcome = Going(c: Config) | Yielded(c: Config) | Ended(c: Config)

  function Write(name: string, e: Exp, env: Env, store: Store): Store {
    match Lookup(env, name)
    case None => store
    case Some(id) => store[id := Eval(e, env, store)]
  }

  predicate Holds(test: Option<Exp>, env: Env, store: Store) {
    test.None? || Eval(test.value, env, store) != 0
  }

  /** A loop about to decide whether to run its body. */
  function Loop(f: Frame, c: Config): Config
    requires f.Again?
  {
    if Holds(f.test, f.env, c.store)
    then Config(f.body, Child(f.env), [f] + c.k, c.store, c.current)
    else Config(f.rest, f.env, c.k, c.store, c.current)
  }

  function Step(c: Config): Outcome {
    if c.ss == [] then
      if c.k == [] then Ended(c)
      else
        var f, c1 := c.k[0], c.(k := c.k[1..]);
        match f
        case Leave(rest, env) => Going(c1.(ss := rest, env := env))
        case Again(_, None, _, _, _) => Going(Loop(f, c1))
        case Again(_, Some(a), _, _, env) => Going(Loop(f, c1.(store := Write(a.0, a.1, env, c.store))))
    else
      var rest := c.ss[1..];
      match c.ss[0]
      case Define(id, x, _) => Going(c.(ss := rest, env := AddVar(c.env, x, id)))
      case DefAssign(id, x, _, e) =>
        Going(c.(ss := rest, env := AddVar(c.env, x, id), store := c.store[id := Eval(e, c.env, c.store)]))
      case Assign(x, e) => Going(c.(ss := rest, store := Write(x, e, c.env, c.store)))
      case Yield(None) => Yielded(c.(ss := rest))
      case Yield(Some(e)) => Yielded(c.(ss := rest, current := Eval(e, c.env, c.store)))
      case If(e, thn) =>
        if Eval(e, c.env, c.store) != 0
        then Going(c.(ss := thn, env := Child(c.env), k := [Leave(rest, c.env)] + c.k))
        else Going(c.(ss := rest))
      case IfElse(e, thn, els) =>
        var branch := if Eval(e, c.env, c.store) != 0 then thn else els;
        Going(c.(ss := branch, env := Child(c.env), k := [Leave(rest, c.env)] + c.k))
      case For(test, step, body) => Going(Loop(Again(test, step, body, rest, c.env), c))
      case Await(_, _) => Going(c.(ss := rest))
      case DefAwait(id, x, _, _, _) => Going(c.(ss := rest, env := AddVar(c.env, x, id)))
  }

  /** Runs until the next yield or the end, for at most `n` steps. */
  function Run(c: Config, n: nat): Outcome
    decreases n
  {
    if n == 0 then Going(c)
    else match Step(c)
         case Going(c1) => Run(c1, n - 1)
         case o => o
  }

  function ArgStore(params: seq<Param>, args: seq<int>): Store
    requires |params| == |args|
  {
    if params == [] then map[]
    else
      var k := |params| - 1;
      ArgStore(params[..k], args[..k])[params[k].id := args[k]]
  }

  function Start(p: Program, args: seq<int>): Config
    requires |args| == |p.params|
  {
    Config(p.body, ParamScope(p.params, Child(Root)), [], ArgStore(p.params, args), 0)
  }
}
