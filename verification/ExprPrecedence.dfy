/** Which operators bind tighter than which, by their token codes: shifts, then sums, then
    products, each kind from the left. */
module ExprPrecedence {
  import opened ExprGrammar
  import opened ExprParser

  const OPERATORS := {TYPE_SHL, TYPE_SHR, TYPE_PLUS, TYPE_SUB, TYPE_MUL, TYPE_DIV, TYPE_PS}

  /** Here stands the end of the input, or a token that is no binary operator. */
  ghost predicate NoOperator(inp: Input, p: nat) { p < |inp.toks| ==> inp.toks[p].code !in OPERATORS }

  ghost predicate OperatorAt(inp: Input, p: nat, op: nat) {
    p < |inp.toks| && inp.toks[p].code == op && op in OPERATORS
  }

  /** A lone operand, at the levels that have none of the operators after it. */
  lemma {:induction false} Climbs(inp: Input, level: nat, p: nat, a: Exp, q: nat)
    requires inp.Valid() && p <= |inp.toks| && level <= 2 && Symbol(inp, p) == Ok(a, q)
    requires forall k :: level < k <= 2 ==> !inp.HasOp(k, q)
    ensures Chain(inp, level, p) == Rest(inp, level, a, q)
    decreases 2 - level
  {
    hide Chain, Rest, Symbol;
    ChainStarts(inp, level, p);
    if level < 2 {
      Climbs(inp, level + 1, p, a, q);
      RestTurn(inp, level + 1, a, q);
    }
  }

  /** What a tighter level finds is all a looser one finds if no operator of the levels
      between follows. */
  lemma {:induction false} Lifts(inp: Input, tight: nat, level: nat, p: nat, a: Exp, q: nat)
    requires inp.Valid() && p <= |inp.toks| && level <= tight <= 2 && Chain(inp, tight, p) == Ok(a, q)
    requires forall k :: level < k < tight ==> !inp.HasOp(k, q)
    ensures q <= |inp.toks| && (level < tight ==> Chain(inp, level, p) == Rest(inp, level, a, q))
    decreases tight - level
  {
    if level < tight {
      Lifts(inp, tight, level + 1, p, a, q);
      hide Chain, Rest;
      ChainStarts(inp, level, p);
      if level + 1 < tight { RestTurn(inp, level + 1, a, q); }
    }
  }

  /** Operators of one level: the first pair is joined first. */
  lemma {:induction false} TurnsOnce(inp: Input, level: nat, a: Exp, q: nat, b: Exp, r: nat)
    requires inp.Valid() && q < |inp.toks| && level <= 2 && inp.HasOp(level, q) && Symbol(inp, q + 1) == Ok(b, r)
    requires forall k :: level < k <= 2 ==> !inp.HasOp(k, r)
    ensures Rest(inp, level, a, q) == Rest(inp, level, Bin(inp.toks[q].code, a, b), r)
  {
    hide Chain, Rest, Symbol;
    RestTurn(inp, level, a, q);
    if level < 2 {
      Climbs(inp, level + 1, q + 1, b, r);
      RestTurn(inp, level + 1, b, r);
    }
  }

  /** Nothing follows at any level. */
  lemma {:induction false} Finishes(inp: Input, level: nat, p: nat, a: Exp, q: nat)
    requires inp.Valid() && p <= |inp.toks| && level <= 2 && Chain(inp, level, p) == Ok(a, q) && NoOperator(inp, q)
    ensures Chain(inp, 0, p) == Ok(a, q)
  {
    Lifts(inp, level, 0, p, a, q);
    hide Chain, Rest;
    RestTurn(inp, 0, a, q);
  }

  /** An operand with no operator after it. */
  lemma OperandAlone(inp: Input, p: nat, a: Exp, q: nat)
    requires inp.Valid() && p <= |inp.toks| && Symbol(inp, p) == Ok(a, q) && NoOperator(inp, q)
    ensures Chain(inp, 0, p) == Ok(a, q)
  {
    hide Chain, Rest, Symbol;
    Climbs(inp, 2, p, a, q);
    RestTurn(inp, 2, a, q);
    Finishes(inp, 2, p, a, q);
  }

  /** Two operands and an operator, whichever of the seven. */
  lemma OneOperator(inp: Input, p: nat, a: Exp, q: nat, op: nat, b: Exp, r: nat)
    requires inp.Valid() && p <= |inp.toks| && Symbol(inp, p) == Ok(a, q) && OperatorAt(inp, q, op)
    requires Symbol(inp, q + 1) == Ok(b, r) && NoOperator(inp, r)
    ensures Chain(inp, 0, p) == Ok(Bin(op, a, b), r)
  {
    hide Chain, Rest, Symbol;
    var k := OpLevel(op);
    Climbs(inp, k, p, a, q);
    TurnsOnce(inp, k, a, q, b, r);
    RestTurn(inp, k, Bin(op, a, b), r);
    Finishes(inp, k, p, Bin(op, a, b), r);
  }

  /** The second operator belongs to a tighter level. */
  lemma RightFirst(inp: Input, p: nat, a: Exp, q: nat, op1: nat, b: Exp, r: nat, op2: nat, c: Exp, s: nat)
    requires inp.Valid() && p <= |inp.toks| && Symbol(inp, p) == Ok(a, q) && OperatorAt(inp, q, op1)
    requires Symbol(inp, q + 1) == Ok(b, r) && OperatorAt(inp, r, op2) && Symbol(inp, r + 1) == Ok(c, s)
    requires NoOperator(inp, s) && OpLevel(op1) < OpLevel(op2)
    ensures Chain(inp, 0, p) == Ok(Bin(op1, a, Bin(op2, b, c)), s)
  {
    hide Chain, Rest, Symbol;
    var k1, k2, e := OpLevel(op1), OpLevel(op2), Bin(op2, b, c);
    Climbs(inp, k1, p, a, q);
    RestTurn(inp, k1, a, q);
    Climbs(inp, k2, q + 1, b, r);
    TurnsOnce(inp, k2, b, r, c, s);
    RestTurn(inp, k2, e, s);
    Lifts(inp, k2, k1 + 1, q + 1, e, s);
    RestTurn(inp, k1 + 1, e, s);
    RestTurn(inp, k1, Bin(op1, a, e), s);
    Finishes(inp, k1, p, Bin(op1, a, e), s);
  }

  /** The second operator belongs to the same level or a looser one. */
  lemma LeftFirst(inp: Input, p: nat, a: Exp, q: nat, op1: nat, b: Exp, r: nat, op2: nat, c: Exp, s: nat)
    requires inp.Valid() && p <= |inp.toks| && Symbol(inp, p) == Ok(a, q) && OperatorAt(inp, q, op1)
    requires Symbol(inp, q + 1) == Ok(b, r) && OperatorAt(inp, r, op2) && Symbol(inp, r + 1) == Ok(c, s)
    requires NoOperator(inp, s) && OpLevel(op1) >= OpLevel(op2)
    ensures Chain(inp, 0, p) == Ok(Bin(op2, Bin(op1, a, b), c), s)
  {
    hide Chain, Rest, Symbol;
    var k1, k2, e := OpLevel(op1), OpLevel(op2), Bin(op1, a, b);
    Climbs(inp, k1, p, a, q);
    TurnsOnce(inp, k1, a, q, b, r);
    if k2 < k1 {
      RestTurn(inp, k1, e, r);
      Lifts(inp, k1, k2, p, e, r);
    }
    TurnsOnce(inp, k2, e, r, c, s);
    RestTurn(inp, k2, Bin(op2, e, c), s);
    Finishes(inp, k2, p, Bin(op2, e, c), s);
  }

  /** Two operators between three operands, which may be literals, calls, parentheses or
      signed: the second pair is joined first exactly when the first operator is a shift and
      the second a sum or a product, or the first a sum and the second a product. */
  lemma Precedence(inp: Input, p: nat, a: Exp, q: nat, op1: nat, b: Exp, r: nat, op2: nat, c: Exp, s: nat)
    requires inp.Valid() && p <= |inp.toks| && Symbol(inp, p) == Ok(a, q) && OperatorAt(inp, q, op1)
    requires Symbol(inp, q + 1) == Ok(b, r) && OperatorAt(inp, r, op2) && Symbol(inp, r + 1) == Ok(c, s)
    requires NoOperator(inp, s)
    ensures Chain(inp, 0, p) == Ok(
      if (op1 in {TYPE_SHL, TYPE_SHR} && op2 !in {TYPE_SHL, TYPE_SHR})
          || (op1 in {TYPE_PLUS, TYPE_SUB} && op2 in {TYPE_MUL, TYPE_DIV, TYPE_PS})
      then Bin(op1, a, Bin(op2, b, c)) else Bin(op2, Bin(op1, a, b), c), s)
  {
    hide Chain, Symbol;
    if OpLevel(op1) < OpLevel(op2) {
      RightFirst(inp, p, a, q, op1, b, r, op2, c, s);
    } else {
      LeftFirst(inp, p, a, q, op1, b, r, op2, c, s);
    }
  }

  // ----- what operands look like -----

  /** A literal that has a value. */
  ghost predicate LiteralAt(inp: Input, p: nat) {
    p < |inp.toks| && (inp.toks[p].code == TYPE_STR
      || (inp.toks[p].code in {TYPE_INT, TYPE_FLOAT} && inp.literal(inp.toks[p])))
  }

  function Leaf(tok: Token): Exp { if tok.code == TYPE_STR then Str(tok) else Num(tok) }

  lemma LiteralOperand(inp: Input, p: nat)
    requires inp.Valid() && LiteralAt(inp, p)
    ensures Symbol(inp, p) == Ok(Leaf(inp.toks[p]), p + 1)
  {
  }

  /** A sign binds tighter than every binary operator, and takes one literal. */
  lemma SignedOperand(inp: Input, p: nat)
    requires inp.Valid() && p < |inp.toks| && inp.toks[p].code in {TYPE_PLUS, TYPE_SUB} && LiteralAt(inp, p + 1)
    ensures Symbol(inp, p) == Ok(Unary(inp.toks[p].code, Leaf(inp.toks[p + 1])), p + 2)
  {
  }

  /** Parentheses make an operand of any expression. */
  lemma ParenOperand(inp: Input, p: nat, e: Exp, q: nat)
    requires inp.Valid() && p < |inp.toks| && inp.toks[p].code == TYPE_LP && Chain(inp, 0, p + 1) == Ok(e, q)
    requires q < |inp.toks| && inp.toks[q].code == TYPE_RP
    ensures Symbol(inp, p) == Ok(e, q + 1)
  {
  }

  /** `a op1 b op2 c` over literals. */
  lemma LiteralsGroup(inp: Input, p: nat, op1: nat, op2: nat)
    requires inp.Valid() && LiteralAt(inp, p) && LiteralAt(inp, p + 2) && LiteralAt(inp, p + 4)
    requires OperatorAt(inp, p + 1, op1) && OperatorAt(inp, p + 3, op2) && NoOperator(inp, p + 5)
    ensures var a, b, c := Leaf(inp.toks[p]), Leaf(inp.toks[p + 2]), Leaf(inp.toks[p + 4]);
      Chain(inp, 0, p) == Ok(
        if (op1 in {TYPE_SHL, TYPE_SHR} && op2 in {TYPE_PLUS, TYPE_SUB, TYPE_MUL, TYPE_DIV, TYPE_PS})
            || (op1 in {TYPE_PLUS, TYPE_SUB} && op2 in {TYPE_MUL, TYPE_DIV, TYPE_PS})
        then Bin(op1, a, Bin(op2, b, c)) else Bin(op2, Bin(op1, a, b), c), p + 5)
  {
    hide Chain, Symbol;
    LiteralOperand(inp, p);
    LiteralOperand(inp, p + 2);
    LiteralOperand(inp, p + 4);
    Precedence(inp, p, Leaf(inp.toks[p]), p + 1, op1, Leaf(inp.toks[p + 2]), p + 3, op2, Leaf(inp.toks[p + 4]), p + 5);
  }

  lemma LiteralsJoin(inp: Input, p: nat, op: nat)
    requires inp.Valid() && LiteralAt(inp, p) && OperatorAt(inp, p + 1, op) && LiteralAt(inp, p + 2)
    requires NoOperator(inp, p + 3)
    ensures Chain(inp, 0, p) == Ok(Bin(op, Leaf(inp.toks[p]), Leaf(inp.toks[p + 2])), p + 3)
  {
    hide Chain, Symbol;
    LiteralOperand(inp, p);
    LiteralOperand(inp, p + 2);
    OneOperator(inp, p, Leaf(inp.toks[p]), p + 1, op, Leaf(inp.toks[p + 2]), p + 3);
  }
  /** `(a op1 b) op2 c` over literals is grouped as it is written. */
  lemma LeftParensGroup(inp: Input, p: nat, op1: nat, op2: nat)
    requires inp.Valid() && p + 7 <= |inp.toks| && inp.toks[p].code == TYPE_LP && inp.toks[p + 4].code == TYPE_RP
    requires LiteralAt(inp, p + 1) && LiteralAt(inp, p + 3) && LiteralAt(inp, p + 6)
    requires OperatorAt(inp, p + 2, op1) && OperatorAt(inp, p + 5, op2) && NoOperator(inp, p + 7)
    ensures var a, b, c := Leaf(inp.toks[p + 1]), Leaf(inp.toks[p + 3]), Leaf(inp.toks[p + 6]);
      Chain(inp, 0, p) == Ok(Bin(op2, Bin(op1, a, b), c), p + 7)
  {
    hide Chain, Symbol;
    var inner := Bin(op1, Leaf(inp.toks[p + 1]), Leaf(inp.toks[p + 3]));
    LiteralsJoin(inp, p + 1, op1);
    ParenOperand(inp, p, inner, p + 4);
    LiteralOperand(inp, p + 6);
    OneOperator(inp, p, inner, p + 5, op2, Leaf(inp.toks[p + 6]), p + 7);
  }

  /** `a op1 (b op2 c)` over literals is grouped as it is written. */
  lemma RightParensGroup(inp: Input, p: nat, op1: nat, op2: nat)
    requires inp.Valid() && p + 7 <= |inp.toks| && inp.toks[p + 2].code == TYPE_LP && inp.toks[p + 6].code == TYPE_RP
    requires LiteralAt(inp, p) && LiteralAt(inp, p + 3) && LiteralAt(inp, p + 5)
    requires OperatorAt(inp, p + 1, op1) && OperatorAt(inp, p + 4, op2) && NoOperator(inp, p + 7)
    ensures var a, b, c := Leaf(inp.toks[p]), Leaf(inp.toks[p + 3]), Leaf(inp.toks[p + 5]);
      Chain(inp, 0, p) == Ok(Bin(op1, a, Bin(op2, b, c)), p + 7)
  {
    hide Chain, Symbol;
    var inner := Bin(op2, Leaf(inp.toks[p + 3]), Leaf(inp.toks[p + 5]));
    LiteralsJoin(inp, p + 3, op2);
    ParenOperand(inp, p + 2, inner, p + 6);
    LiteralOperand(inp, p);
    OneOperator(inp, p, Leaf(inp.toks[p]), p + 1, op1, inner, p + 7);
  }
}
