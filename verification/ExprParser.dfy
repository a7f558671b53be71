/** The recursive descent parser of number expressions, over the tokens of one input. */
module ExprParser {
  import opened Wrappers
  import opened ExprGrammar

  /** A parse that panics, or its tree and the place it stops at. */
  datatype Outcome = Fail | Ok(exp: Exp, pos: nat)

  /** The tokens, which number literals have a value, and what the parser of variables,
      calls and initialisers finds at each place. */
  datatype Input = Input(toks: seq<Token>, literal: Token -> bool, takeVal: nat -> Outcome) {
    ghost predicate Valid() {
      && (forall i :: 0 <= i < |toks| && IsMark(toks[i].code) ==> toks[i] == Mark(toks[i].code))
      && (forall p: nat :: takeVal(p).Ok? ==>
            && p < takeVal(p).pos <= |toks| && takeVal(p).exp.Taken?
            && !IsLit(toks[p].code) && toks[p].code != TYPE_LP && OpLevel(toks[p].code) != 1)
    }

    predicate HasOp(level: nat, p: nat) { p < |toks| && level <= 2 && OpLevel(toks[p].code) == level }
  }

  // ----- what the parser finds, as functions -----

  ghost function Number(inp: Input, p: nat): (r: Outcome)
    requires inp.Valid() && p <= |inp.toks|
    ensures r.Ok? ==> p < r.pos <= |inp.toks|
    decreases |inp.toks| - p, 0
  {
    if p < |inp.toks| && inp.toks[p].code == TYPE_STR then Ok(Str(inp.toks[p]), p + 1)
    else if inp.takeVal(p).Ok? then inp.takeVal(p)
    else if p == |inp.toks| then Fail
    else if inp.toks[p].code == TYPE_INT || inp.toks[p].code == TYPE_FLOAT then
      if inp.literal(inp.toks[p]) then Ok(Num(inp.toks[p]), p + 1) else Fail
    else if inp.toks[p].code == TYPE_LP then
      var e := Chain(inp, 0, p + 1);
      if e.Ok? && e.pos < |inp.toks| && inp.toks[e.pos].code == TYPE_RP then Ok(e.exp, e.pos + 1) else Fail
    else Fail
  }

  ghost function Symbol(inp: Input, p: nat): (r: Outcome)
    requires inp.Valid() && p <= |inp.toks|
    ensures r.Ok? ==> p < r.pos <= |inp.toks|
    decreases |inp.toks| - p, 1
  {
    if p == |inp.toks| then Fail
    else if inp.HasOp(1, p) then
      var e := Number(inp, p + 1);
      if e.Ok? then Ok(Unary(inp.toks[p].code, e.exp), e.pos) else Fail
    else Number(inp, p)
  }

  /** What a level's operators join: chains of the next level, or symbols. */
  ghost function Operand(inp: Input, level: nat, p: nat): (r: Outcome)
    requires inp.Valid() && p <= |inp.toks| && level <= 2
    ensures r.Ok? ==> p < r.pos <= |inp.toks|
    decreases |inp.toks| - p, 8 - 2 * level
  {
    if level == 2 then Symbol(inp, p) else Chain(inp, level + 1, p)
  }

  /** Level 0 is `exp`, level 1 `addedFactor` and level 2 `factor`. */
  ghost function Chain(inp: Input, level: nat, p: nat): (r: Outcome)
    requires inp.Valid() && p <= |inp.toks| && level <= 2
    ensures r.Ok? ==> p < r.pos <= |inp.toks|
    decreases |inp.toks| - p, 9 - 2 * level
  {
    var e := Operand(inp, level, p);
    if e.Ok? then Rest(inp, level, e.exp, e.pos) else Fail
  }

  ghost function Rest(inp: Input, level: nat, a: Exp, p: nat): (r: Outcome)
    requires inp.Valid() && p <= |inp.toks| && level <= 2
    ensures r.Ok? ==> p <= r.pos <= |inp.toks|
    decreases |inp.toks| - p, 10
  {
    if inp.HasOp(level, p) then
      var e := Operand(inp, level, p + 1);
      if e.Ok? then Rest(inp, level, Bin(inp.toks[p].code, a, e.exp), e.pos) else Fail
    else Ok(a, p)
  }

  /** One turn of the loop over a level's operators. */
  lemma RestTurn(inp: Input, level: nat, a: Exp, p: nat)
    requires inp.Valid() && p <= |inp.toks| && level <= 2
    ensures inp.HasOp(level, p) ==>
      var e := if level == 2 then Symbol(inp, p + 1) else Chain(inp, level + 1, p + 1);
      Rest(inp, level, a, p) == if e.Ok? then Rest(inp, level, Bin(inp.toks[p].code, a, e.exp), e.pos) else Fail
    ensures !inp.HasOp(level, p) ==> Rest(inp, level, a, p) == Ok(a, p)
  {
  }

  lemma ChainStarts(inp: Input, level: nat, p: nat)
    requires inp.Valid() && p <= |inp.toks| && level <= 2
    ensures var e := if level == 2 then Symbol(inp, p) else Chain(inp, level + 1, p);
      Chain(inp, level, p) == if e.Ok? then Rest(inp, level, e.exp, e.pos) else Fail
  {
  }

  // ----- the parser -----

  class Parser {
    const input: Input
    var pos: nat

    ghost predicate Valid() { input.Valid() }

    /** The next token's index; the lexer may stand beyond the last token. */
    ghost function At(): (p: nat)
      reads this
      ensures p <= |input.toks|
    {
      if pos < |input.toks| then pos else |input.toks|
    }

    /** A result and the place after it are those of an outcome; after a panic the place is open. */
    ghost predicate Found(e: Option<Exp>, r: Outcome)
      reads this
    {
      (e.Some? <==> r.Ok?) && (e.Some? ==> e.value == r.exp && At() == r.pos)
    }

    constructor (input: Input)
      requires input.Valid()
      ensures Valid() && this.input == input && pos == 0
    {
      this.input, pos := input, 0;
    }

    /** Reads a token; at the end it gives code 0, which is that of integers, and moves on all the same. */
    method Scan() returns (tok: Token, eos: bool)
      modifies this
      ensures pos == old(pos) + 1 && eos == (old(pos) >= |input.toks|)
      ensures tok == if eos then Token(TYPE_INT, "") else input.toks[old(pos)]
    {
      if pos < |input.toks| { tok, eos := input.toks[pos], false; } else { tok, eos := Token(TYPE_INT, ""), true; }
      pos := pos + 1;
    }

    method SetCheckpoint() returns (ch: nat)
      ensures ch == pos
    {
      return pos;
    }

    method GobackTo(ch: nat)
      modifies this
      ensures pos == ch
    {
      pos := ch;
    }

    method ScanType(code: nat) returns (text: Option<string>)
      requires code != TYPE_INT
      modifies this
      ensures text.Some? <==> old(pos) < |input.toks| && input.toks[old(pos)].code == code
      ensures text.Some? ==> text.value == input.toks[old(pos)].text && pos == old(pos) + 1
      ensures text.None? ==> At() == old(At())
    {
      var ch := SetCheckpoint();
      var tok, eos := Scan();
      if tok.code == code { return Some(tok.text); }
      if eos { return None; }
      GobackTo(ch);
      return None;
    }

    method StrExp() returns (e: Option<Exp>)
      modifies this
      ensures e.Some? <==> old(pos) < |input.toks| && input.toks[old(pos)].code == TYPE_STR
      ensures e.Some? ==> e.value == Str(input.toks[old(pos)]) && pos == old(pos) + 1
    {
      var str := ScanType(TYPE_STR);
      return if str.Some? then Some(Str(Token(TYPE_STR, str.value))) else None;
    }

    method TakeValExp() returns (e: Option<Exp>)
      requires Valid()
      modifies this
      ensures e.Some? <==> input.takeVal(old(At())).Ok?
      ensures e.Some? ==> Ok(e.value, At()) == input.takeVal(old(At()))
    {
      var r := input.takeVal(if pos < |input.toks| then pos else |input.toks|);
      if r.Fail? { return None; }
      pos := r.pos;
      return Some(r.exp);
    }

    method ParseNumber() returns (e: Option<Exp>)
      requires Valid()
      modifies this
      ensures Found(e, Number(input, old(At())))
      decreases |input.toks| - At(), 0
    {
      var start := SetCheckpoint();
      e := StrExp();
      if e.Some? { return e; }
      GobackTo(start);
      var ch := SetCheckpoint();
      e := TakeValExp();
      if e.Some? { return e; }
      GobackTo(ch);
      var tok, eos := Scan();
      if eos { return None; }
      if tok.code == TYPE_FLOAT || tok.code == TYPE_INT {
        return if input.literal(tok) then Some(Num(tok)) else None;
      }
      GobackTo(ch);
      var lp := ScanType(TYPE_LP);
      if lp.None? { return None; }
      e := ParseExp();
      if e.None? { return None; }
      var rp := ScanType(TYPE_RP);
      if rp.None? { return None; }
    }

    method ParseSymbol() returns (e: Option<Exp>)
      requires Valid()
      modifies this
      ensures Found(e, Symbol(input, old(At())))
      decreases |input.toks| - At(), 1
    {
      var ch := SetCheckpoint();
      var tok, eos := Scan();
      if eos { return None; }
      if tok.code == TYPE_PLUS || tok.code == TYPE_SUB {
        e := ParseNumber();
        return if e.Some? then Some(Unary(tok.code, e.value)) else None;
      }
      GobackTo(ch);
      e := ParseNumber();
    }

    /** Where a loop over the operators of a level stands: `a` parsed up to the checkpoint,
        and the token after it scanned. */
    ghost predicate Looping(level: nat, start: nat, a: Exp, ch: nat, tok: Token, eos: bool)
      requires Valid() && start <= |input.toks| && level <= 2
      reads this
    {
      var p := if ch < |input.toks| then ch else |input.toks|;
      && pos == ch + 1 && eos == (ch >= |input.toks|) && start < p
      && tok == (if eos then Token(TYPE_INT, "") else input.toks[ch])
      && Chain(input, level, start) == Rest(input, level, a, p)
    }

    method ParseFactor() returns (e: Option<Exp>)
      requires Valid()
      modifies this
      ensures Found(e, Chain(input, 2, old(At())))
      decreases |input.toks| - At(), 5
    {
      hide Chain, Rest, Operand, Number, Symbol;
      ghost var start := At();
      ChainStarts(input, 2, start);
      e := ParseSymbol();
      if e.None? { return None; }
      var a := e.value;
      var ch := SetCheckpoint();
      var tok, eos := Scan();
      while (!eos && tok.code == TYPE_DIV) || tok.code == TYPE_MUL || tok.code == TYPE_PS
        invariant Looping(2, start, a, ch, tok, eos)
        decreases |input.toks| - At()
      {
        RestTurn(input, 2, a, ch);
        var b := ParseSymbol();
        if b.None? { return None; }
        a := Bin(tok.code, a, b.value);
        ch := SetCheckpoint();
        tok, eos := Scan();
      }
      RestTurn(input, 2, a, if eos then |input.toks| else ch);
      if !eos { GobackTo(ch); }
      return Some(a);
    }

    method ParseAddedFactor() returns (e: Option<Exp>)
      requires Valid()
      modifies this
      ensures Found(e, Chain(input, 1, old(At())))
      decreases |input.toks| - At(), 7
    {
      hide Chain, Rest, Operand, Number, Symbol;
      ghost var start := At();
      ChainStarts(input, 1, start);
      e := ParseFactor();
      if e.None? { return None; }
      var a := e.value;
      var ch := SetCheckpoint();
      var tok, eos := Scan();
      while (!eos && tok.code == TYPE_PLUS) || tok.code == TYPE_SUB
        invariant Looping(1, start, a, ch, tok, eos)
        decreases |input.toks| - At()
      {
        RestTurn(input, 1, a, ch);
        var b := ParseFactor();
        if b.None? { return None; }
        a := Bin(tok.code, a, b.value);
        ch := SetCheckpoint();
        tok, eos := Scan();
      }
      RestTurn(input, 1, a, if eos then |input.toks| else ch);
      if !eos { GobackTo(ch); }
      return Some(a);
    }

    method ParseExp() returns (e: Option<Exp>)
      requires Valid()
      modifies this
      ensures Found(e, Chain(input, 0, old(At())))
      decreases |input.toks| - At(), 9
    {
      hide Chain, Rest, Operand, Number, Symbol;
      ghost var start := At();
      ChainStarts(input, 0, start);
      e := ParseAddedFactor();
      if e.None? { return None; }
      var a := e.value;
      var ch := SetCheckpoint();
      var tok, eos := Scan();
      while (!eos && tok.code == TYPE_SHL) || tok.code == TYPE_SHR
        invariant Looping(0, start, a, ch, tok, eos)
        decreases |input.toks| - At()
      {
        RestTurn(input, 0, a, ch);
        var b := ParseAddedFactor();
        if b.None? { return None; }
        a := Bin(tok.code, a, b.value);
        ch := SetCheckpoint();
        tok, eos := Scan();
      }
      RestTurn(input, 0, a, if eos then |input.toks| else ch);
      if !eos { GobackTo(ch); }
      return Some(a);
    }
  }
}
