/** Expressions of the number grammar: tokens, trees, the grammar with its parentheses, and
    printing. */
module ExprGrammar {

  const TYPE_INT := 0
  const TYPE_PLUS := 1
  const TYPE_SUB := 2
  const TYPE_MUL := 3
  const TYPE_DIV := 4
  const TYPE_LP := 5
  const TYPE_RP := 6
  const TYPE_FLOAT := 12
  const TYPE_STR := 55
  const TYPE_PS := 59
  const TYPE_SHL := 60
  const TYPE_SHR := 61

  datatype Token = Token(code: nat, text: string)

  /** The text the lexer gives with an operator or a parenthesis. */
  function Spelling(code: nat): string {
    if code == TYPE_PLUS then "+" else if code == TYPE_SUB then "-" else if code == TYPE_MUL then "*"
    else if code == TYPE_DIV then "/" else if code == TYPE_LP then "(" else if code == TYPE_RP then ")"
    else if code == TYPE_PS then "%" else if code == TYPE_SHL then "<<" else ">>"
  }

  function Mark(code: nat): Token { Token(code, Spelling(code)) }

  predicate IsMark(code: nat) { TYPE_PLUS <= code <= TYPE_RP || TYPE_PS <= code <= TYPE_SHR }

  /** Expression trees. `Taken` stands for a variable, call or initialiser, with its dereferences. */
  datatype Exp = Num(lit: Token) | Str(lit: Token) | Taken(node: nat) | Unary(op: nat, child: Exp)
    | Bin(op: nat, left: Exp, right: Exp)

  /** The level of a binary operator: shifts 0, sums 1, products 2; anything else 3. */
  function OpLevel(code: nat): nat {
    if code == TYPE_SHL || code == TYPE_SHR then 0
    else if code == TYPE_PLUS || code == TYPE_SUB then 1
    else if code == TYPE_DIV || code == TYPE_MUL || code == TYPE_PS then 2
    else 3
  }

  predicate IsLit(code: nat) { code == TYPE_INT || code == TYPE_FLOAT || code == TYPE_STR }

  /** Source text as the grammar builds it, with its parentheses. */
  datatype Source =
    | Lit(tok: Token)
    | Piece(node: nat, toks: seq<Token>)
    | Paren(inner: Source)
    | Signed(op: nat, child: Source)
    | Op(op: nat, left: Source, right: Source)

  function Text(s: Source): (t: seq<Token>) {
    match s
    case Lit(tok) => [tok]
    case Piece(_, toks) => toks
    case Paren(inner) => [Mark(TYPE_LP)] + Text(inner) + [Mark(TYPE_RP)]
    case Signed(op, child) => [Mark(op)] + Text(child)
    case Op(op, left, right) => Text(left) + [Mark(op)] + Text(right)
  }

  /** The tree a source text stands for. */
  function Strip(s: Source): Exp {
    match s
    case Lit(tok) => if tok.code == TYPE_STR then Str(tok) else Num(tok)
    case Piece(node, _) => Taken(node)
    case Paren(inner) => Strip(inner)
    case Signed(op, child) => Unary(op, Strip(child))
    case Op(op, left, right) => Bin(op, Strip(left), Strip(right))
  }

  /** The grammar. Levels 0 to 4 are `exp`, `added_factor`, `factor`, `symbol` and `number`. */
  predicate At(level: nat, s: Source)
    decreases s
  {
    match s
    case Lit(tok) => IsLit(tok.code)
    case Piece(_, toks) => true
    case Paren(inner) => At(0, inner)
    case Signed(op, child) => level <= 3 && OpLevel(op) == 1 && At(4, child)
    case Op(op, left, right) => var k := OpLevel(op); level <= k <= 2 && At(k, left) && At(k + 1, right)
  }

  /** No variables, calls or initialisers in it. */
  predicate Plain(s: Source) {
    match s
    case Lit(_) => true
    case Piece(_, _) => false
    case Paren(inner) => Plain(inner)
    case Signed(_, child) => Plain(child)
    case Op(_, left, right) => Plain(left) && Plain(right)
  }

  // ----- printing with as few parentheses as possible -----

  /** A tree the parser can build from literals: operators of the grammar, and no operand left out. */
  predicate WellFormed(t: Exp) {
    match t
    case Num(lit) => lit.code == TYPE_INT || lit.code == TYPE_FLOAT
    case Str(lit) => lit.code == TYPE_STR
    case Taken(_) => false
    case Unary(op, child) => OpLevel(op) == 1 && WellFormed(child)
    case Bin(op, left, right) => OpLevel(op) <= 2 && WellFormed(left) && WellFormed(right)
  }

  function Level(t: Exp): nat {
    match t
    case Unary(_, _) => 3
    case Bin(op, _, _) => OpLevel(op)
    case _ => 4
  }

  function Show(level: nat, t: Exp): Source
    requires WellFormed(t)
    decreases t, 1
  {
    if Level(t) < level then Paren(Bare(t)) else Bare(t)
  }

  function Bare(t: Exp): Source
    requires WellFormed(t)
    decreases t, 0
  {
    match t
    case Num(lit) => Lit(lit)
    case Str(lit) => Lit(lit)
    case Unary(op, child) => Signed(op, Show(4, child))
    case Bin(op, left, right) => Op(op, Show(Level(t), left), Show(Level(t) + 1, right))
  }

  lemma {:induction false} Shown(level: nat, t: Exp)
    requires WellFormed(t) && level <= 4
    ensures At(level, Show(level, t)) && Strip(Show(level, t)) == t && Plain(Show(level, t))
    decreases t
  {
    match t
    case Num(_) =>
    case Str(_) =>
    case Unary(op, child) =>
      Shown(4, child);
      assert At(0, Bare(t)) && At(3, Bare(t)) && (level <= 3 ==> At(level, Bare(t)));
    case Bin(op, left, right) =>
      var k := Level(t);
      Shown(k, left);
      Shown(k + 1, right);
      assert At(0, Bare(t)) && (level <= k ==> At(level, Bare(t)));
  }

  /** No text for the same tree is shorter. */
  lemma {:induction false} ShownShortest(level: nat, s: Source)
    requires At(level, s) && level <= 4 && WellFormed(Strip(s))
    ensures |Text(Show(level, Strip(s)))| <= |Text(s)|
    decreases s
  {
    var t := Strip(s);
    match s
    case Lit(_) =>
    case Paren(inner) =>
      ShownShortest(0, inner);
    case Signed(op, child) =>
      ShownShortest(4, child);
    case Op(op, left, right) =>
      var k := OpLevel(op);
      ShownShortest(k, left);
      ShownShortest(k + 1, right);
  }
}
