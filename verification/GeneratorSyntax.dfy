/** The generator fragment of the language: statements, name scopes and the
    values of expressions, shared by direct execution and by the lowering. */
module GeneratorSyntax {
  import opened Wrappers

  /** A declaration node of the syntax tree, identified as a pointer would be. */
  type NodeId = nat

  datatype BinOp = Plus | Minus | Times | Less | Equal

  datatype Exp = Lit(n: int) | Ref(name: string) | Bin(op: BinOp, left: Exp, right: Exp)

  datatype Type = IntType | BoolType | MutexPtr | Named(id: string) | StructType(fields: seq<Type>)

  /** `For` has no init clause: such a clause gets no context slot. */
  datatype Stmt =
    | Define(id: NodeId, name: string, tp: Type)
    | DefAssign(id: NodeId, name: string, tp: Type, val: Exp)
    | Assign(name: string, val: Exp)
    | Yield(out: Option<Exp>)
    | If(cond: Exp, thn: seq<Stmt>)
    | IfElse(cond: Exp, thn: seq<Stmt>, els: seq<Stmt>)
    | For(test: Option<Exp>, step: Option<(string, Exp)>, body: seq<Stmt>)
    | Await(id: NodeId, gen: Type)
    | DefAwait(id: NodeId, name: string, tp: Type, awaitId: NodeId, gen: Type)

  datatype Param = Param(id: NodeId, name: string, tp: Type)

  datatype Program = Program(params: seq<Param>, body: seq<Stmt>, result: Type)

  /** The chain of scopes: each holds the variables declared in it so far. */
  datatype Env = Root | Scope(vars: map<string, NodeId>, parent: Env)

  function Lookup(env: Env, name: string): Option<NodeId> {
    match env
    case Root => None
    case Scope(vars, parent) => if name in vars then Some(vars[name]) else Lookup(parent, name)
  }

  /** Redeclaring a name in the same scope is reported nowhere and changes nothing. */
  function AddVar(env: Env, name: string, id: NodeId): Env {
    match env
    case Root => Scope(map[name := id], Root)
    case Scope(vars, parent) => if name in vars then env else Scope(vars[name := id], parent)
  }

  function Child(env: Env): Env { Scope(map[], env) }

  function ParamScope(ps: seq<Param>, env: Env): Env {
    if ps == [] then env else ParamScope(ps[1..], AddVar(env, ps[0].name, ps[0].id))
  }

  function Apply(op: BinOp, a: int, b: int): int {
    match op
    case Plus => a + b
    case Minus => a - b
    case Times => a * b
    case Less => if a < b then 1 else 0
    case Equal => if a == b then 1 else 0
  }

  /** Freshly allocated memory is zero. */
  function Read<K>(m: map<K, int>, k: K): int { if k in m then m[k] else 0 }

  type Store = map<NodeId, int>

  function Eval(e: Exp, env: Env, store: Store): int {
    match e
    case Lit(n) => n
    case Ref(x) => (match Lookup(env, x) case None => 0 case Some(id) => Read(store, id))
    case Bin(op, l, r) => Apply(op, Eval(l, env, store), Eval(r, env, store))
  }
}
