/** The parser and the grammar: every text of the grammar is parsed to its tree, only such
    texts are accepted, and printing then parsing gives the tree back. */
module ExprRoundTrip {
  import opened ExprGrammar
  import opened ExprParser

  ghost predicate TextAt(inp: Input, p: nat, w: seq<Token>) {
    p + |w| <= |inp.toks| && inp.toks[p..p + |w|] == w
  }

  lemma TextSplit(inp: Input, p: nat, a: seq<Token>, b: seq<Token>)
    requires TextAt(inp, p, a + b)
    ensures TextAt(inp, p, a) && TextAt(inp, p + |a|, b)
  {
    var w := inp.toks[p..p + |a + b|];
    assert inp.toks[p..p + |a|] == w[..|a|] && inp.toks[p + |a|..p + |a| + |b|] == w[|a|..];
  }

  lemma TextHead(inp: Input, p: nat, x: Token, b: seq<Token>)
    requires TextAt(inp, p, [x] + b)
    ensures p < |inp.toks| && inp.toks[p] == x && TextAt(inp, p + 1, b)
  {
    TextSplit(inp, p, [x], b);
    assert inp.toks[p..p + 1][0] == x;
  }

  lemma OpText(inp: Input, s: Source, p: nat)
    requires s.Op? && TextAt(inp, p, Text(s))
    ensures var m := p + |Text(s.left)|;
      && TextAt(inp, p, Text(s.left)) && m < |inp.toks| && inp.toks[m] == Mark(s.op)
      && TextAt(inp, m + 1, Text(s.right)) && p + |Text(s)| == m + 1 + |Text(s.right)|
  {
    hide TextAt;
    assert Text(s) == Text(s.left) + ([Mark(s.op)] + Text(s.right));
    TextSplit(inp, p, Text(s.left), [Mark(s.op)] + Text(s.right));
    TextHead(inp, p + |Text(s.left)|, Mark(s.op), Text(s.right));
  }

  lemma ParenText(inp: Input, s: Source, p: nat)
    requires s.Paren? && TextAt(inp, p, Text(s))
    ensures var m := p + 1 + |Text(s.inner)|;
      && p < |inp.toks| && inp.toks[p] == Mark(TYPE_LP) && TextAt(inp, p + 1, Text(s.inner))
      && m < |inp.toks| && inp.toks[m] == Mark(TYPE_RP) && p + |Text(s)| == m + 1
  {
    hide TextAt;
    assert Text(s) == [Mark(TYPE_LP)] + (Text(s.inner) + [Mark(TYPE_RP)]);
    TextHead(inp, p, Mark(TYPE_LP), Text(s.inner) + [Mark(TYPE_RP)]);
    TextSplit(inp, p + 1, Text(s.inner), [Mark(TYPE_RP)]);
    TextHead(inp, p + 1 + |Text(s.inner)|, Mark(TYPE_RP), []);
  }

  /** At place `p` of the input every number literal of the text has a value, and every
      variable, call or initialiser in it is read as that. */
  ghost predicate Readable(inp: Input, p: nat, s: Source)
    decreases s
  {
    match s
    case Lit(tok) => tok.code == TYPE_STR || inp.literal(tok)
    case Piece(node, toks) => inp.takeVal(p) == Ok(Taken(node), p + |toks|)
    case Paren(inner) => Readable(inp, p + 1, inner)
    case Signed(_, child) => Readable(inp, p + 1, child)
    case Op(_, left, right) => Readable(inp, p, left) && Readable(inp, p + |Text(left)| + 1, right)
  }

  /** No operator of this level or a tighter one stands here. */
  ghost predicate Stops(inp: Input, level: nat, p: nat) {
    p < |inp.toks| ==> OpLevel(inp.toks[p].code) < level || OpLevel(inp.toks[p].code) == 3
  }

  ghost function Find(inp: Input, level: nat, p: nat): Outcome
    requires inp.Valid() && p <= |inp.toks| && level <= 4
  {
    if level <= 2 then Chain(inp, level, p) else if level == 3 then Symbol(inp, p) else Number(inp, p)
  }

  /** Any text of the grammar, followed by no operator of its level or a tighter one, is
      parsed to its tree, and the parser stops exactly at its end. */
  lemma {:induction false} Parsed(inp: Input, level: nat, s: Source, p: nat)
    requires inp.Valid() && level <= 4 && At(level, s) && Readable(inp, p, s)
    requires TextAt(inp, p, Text(s)) && Stops(inp, level, p + |Text(s)|)
    ensures Find(inp, level, p) == Ok(Strip(s), p + |Text(s)|)
    decreases s, 2 * (5 - level) + 1
  {
    hide Chain, Rest, Symbol, Number, Operand;
    if level <= 2 {
      ChainParsed(inp, level, s, p);
      RestTurn(inp, level, Strip(s), p + |Text(s)|);
    } else if level == 3 {
      SymbolParsed(inp, s, p);
    } else {
      NumberParsed(inp, s, p);
    }
  }

  lemma {:induction false} ChainParsed(inp: Input, level: nat, s: Source, p: nat)
    requires inp.Valid() && level <= 2 && At(level, s) && Readable(inp, p, s)
    requires TextAt(inp, p, Text(s)) && Stops(inp, level + 1, p + |Text(s)|)
    ensures Chain(inp, level, p) == Rest(inp, level, Strip(s), p + |Text(s)|)
    decreases s, 2 * (5 - level)
  {
    hide Chain, Rest, Symbol, Number, Operand, TextAt, Text;
    if s.Op? && OpLevel(s.op) == level {
      var m := p + |Text(s.left)|;
      OpText(inp, s, p);
      ChainParsed(inp, level, s.left, p);
      RestTurn(inp, level, Strip(s.left), m);
      Parsed(inp, level + 1, s.right, m + 1);
    } else {
      Parsed(inp, level + 1, s, p);
      ChainStarts(inp, level, p);
    }
  }

  lemma {:induction false} SymbolParsed(inp: Input, s: Source, p: nat)
    requires inp.Valid() && At(3, s) && Readable(inp, p, s) && TextAt(inp, p, Text(s))
    ensures Symbol(inp, p) == Ok(Strip(s), p + |Text(s)|)
    decreases s, 4
  {
    match s
    case Signed(op, child) =>
      TextHead(inp, p, Mark(op), Text(child));
      NumberParsed(inp, child, p + 1);
    case Lit(tok) =>
      TextHead(inp, p, tok, []);
      NumberParsed(inp, s, p);
    case Paren(inner) =>
      ParenText(inp, s, p);
      NumberParsed(inp, s, p);
    case Piece(_, _) =>
      NumberParsed(inp, s, p);
    case _ =>
  }

  lemma {:induction false} NumberParsed(inp: Input, s: Source, p: nat)
    requires inp.Valid() && At(4, s) && Readable(inp, p, s) && TextAt(inp, p, Text(s))
    ensures Number(inp, p) == Ok(Strip(s), p + |Text(s)|)
    decreases s, 0
  {
    match s
    case Lit(tok) =>
      TextHead(inp, p, tok, []);
    case Paren(inner) =>
      ParenText(inp, s, p);
      hide TextAt, Text;
      Parsed(inp, 0, inner, p + 1);
    case _ =>
  }

  /** Printing a tree with as few parentheses as possible and parsing gives the tree back
      and stops at the end of the text, whatever token that is not an operator follows. */
  lemma RoundTrip(inp: Input, t: Exp, p: nat)
    requires inp.Valid() && WellFormed(t) && Readable(inp, p, Show(0, t))
    requires TextAt(inp, p, Text(Show(0, t))) && Stops(inp, 0, p + |Text(Show(0, t))|)
    ensures Chain(inp, 0, p) == Ok(t, p + |Text(Show(0, t))|)
  {
    hide Chain;
    Shown(0, t);
    Parsed(inp, 0, Show(0, t), p);
  }

  /** The grammar is unambiguous: two texts of the grammar at the same place, neither followed
      by an operator, are as long as each other and have the same tree. */
  lemma Unambiguous(inp: Input, a: Source, b: Source, p: nat)
    requires inp.Valid() && At(0, a) && At(0, b) && Readable(inp, p, a) && Readable(inp, p, b)
    requires TextAt(inp, p, Text(a)) && TextAt(inp, p, Text(b))
    requires Stops(inp, 0, p + |Text(a)|) && Stops(inp, 0, p + |Text(b)|)
    ensures Text(a) == Text(b) && Strip(a) == Strip(b)
  {
    hide At, Strip, Chain;
    Parsed(inp, 0, a, p);
    Parsed(inp, 0, b, p);
  }

  /** Texts without variables, calls or initialisers that read the same have the same tree,
      whatever stands around them. */
  lemma PlainUnambiguous(a: Source, b: Source)
    requires At(0, a) && At(0, b) && Plain(a) && Plain(b) && Text(a) == Text(b)
    ensures Strip(a) == Strip(b)
  {
    hide At, Text, Strip, Plain;
    var inp := JustText(Text(a));
    SpelledText(0, a);
    WholeText(inp, 0, a);
    WholeText(inp, 0, b);
  }

  /** The input that holds this text and nothing else. */
  ghost function JustText(w: seq<Token>): Input { Input(w, _ => true, _ => Fail) }

  lemma WholeText(inp: Input, level: nat, s: Source)
    requires inp == JustText(Text(s)) && level <= 2 && At(level, s) && Plain(s)
    requires forall tok :: tok in Text(s) && IsMark(tok.code) ==> tok == Mark(tok.code)
    ensures inp.Valid() && Chain(inp, level, 0) == Ok(Strip(s), |Text(s)|)
  {
    hide At, Text, Strip, Plain, Chain, IsMark, Mark;
    AllReadable(inp, 0, s);
    assert inp.toks[0..|inp.toks|] == Text(s);
    Parsed(inp, level, s, 0);
  }

  lemma {:induction false} SpelledText(level: nat, s: Source)
    requires At(level, s) && Plain(s)
    ensures forall tok :: tok in Text(s) && IsMark(tok.code) ==> tok == Mark(tok.code)
    decreases s
  {
    match s
    case Lit(_) =>
    case Paren(inner) => SpelledText(0, inner);
    case Signed(op, child) => SpelledText(4, child);
    case Op(op, left, right) =>
      SpelledText(OpLevel(op), left);
      SpelledText(OpLevel(op) + 1, right);
  }

  lemma {:induction false} AllReadable(inp: Input, p: nat, s: Source)
    requires Plain(s) && forall tok :: inp.literal(tok)
    ensures Readable(inp, p, s)
    decreases s
  {
    match s
    case Lit(_) =>
    case Paren(inner) => AllReadable(inp, p + 1, inner);
    case Signed(_, child) => AllReadable(inp, p + 1, child);
    case Op(_, left, right) =>
      AllReadable(inp, p, left);
      AllReadable(inp, p + |Text(left)| + 1, right);
  }

  // ----- only texts of the grammar are accepted -----

  /** What is parsed is a text of the grammar with that tree, as long as it can be. */
  ghost predicate Accepted(inp: Input, level: nat, p: nat, r: Outcome, s: Source) {
    && r.Ok? && p <= r.pos <= |inp.toks| && level <= 4
    && At(level, s) && Readable(inp, p, s) && Strip(s) == r.exp && Text(s) == inp.toks[p..r.pos]
      && Stops(inp, level, r.pos)
  }

  lemma {:induction false} Sound(inp: Input, level: nat, p: nat) returns (s: Source)
    requires inp.Valid() && level <= 2 && p <= |inp.toks| && Chain(inp, level, p).Ok?
    ensures Accepted(inp, level, p, Chain(inp, level, p), s)
    decreases |inp.toks| - p, 9 - 2 * level
  {
    hide Number, Rest, Operand;
    ChainStarts(inp, level, p);
    var e := if level == 2 then Symbol(inp, p) else Chain(inp, level + 1, p);
    var first;
    if level == 2 { first := SoundSymbol(inp, p); } else { first := Sound(inp, level + 1, p); }
    hide Chain, Symbol;
    Loosens(level, first);
    s := SoundRest(inp, level, p, first, e.pos);
  }

  /** A text of a tighter level is one of the looser level. */
  lemma Loosens(level: nat, s: Source)
    requires At(level + 1, s)
    ensures At(level, s)
  {
  }

  lemma Joined(w: seq<Token>, i: nat, p: nat, j: nat)
    requires i <= p < j <= |w|
    ensures w[i..j] == w[i..p] + [w[p]] + w[p + 1..j]
  {
  }

  lemma OpAccepted(inp: Input, level: nat, start: nat, a: Source, p: nat, e: Outcome, b: Source)
    requires inp.Valid() && level <= 2 && start <= p < |inp.toks| && At(level, a) && Readable(inp, start, a)
      && Text(a) == inp.toks[start..p]
    requires inp.HasOp(level, p) && Accepted(inp, level + 1, p + 1, e, b)
    ensures var s := Op(inp.toks[p].code, a, b);
      && At(level, s) && Readable(inp, start, s) && Strip(s) == Bin(inp.toks[p].code, Strip(a), e.exp)
      && Text(s) == inp.toks[start..e.pos] && Stops(inp, level + 1, e.pos)
  {
    Joined(inp.toks, start, p, e.pos);
  }

  lemma {:induction false} SoundRest(inp: Input, level: nat, start: nat, a: Source, p: nat) returns (s: Source)
    requires inp.Valid() && level <= 2 && start <= p <= |inp.toks| && At(level, a) && Readable(inp, start, a)
    requires Text(a) == inp.toks[start..p] && Stops(inp, level + 1, p) && Rest(inp, level, Strip(a), p).Ok?
    ensures Accepted(inp, level, start, Rest(inp, level, Strip(a), p), s)
    decreases |inp.toks| - p, 10
  {
    hide Number, Symbol, Chain, Operand, Rest;
    RestTurn(inp, level, Strip(a), p);
    if inp.HasOp(level, p) {
      var e := if level == 2 then Symbol(inp, p + 1) else Chain(inp, level + 1, p + 1);
      var b;
      if level == 2 { b := SoundSymbol(inp, p + 1); } else { b := Sound(inp, level + 1, p + 1); }
      var op := inp.toks[p].code;
      OpAccepted(inp, level, start, a, p, e, b);
      hide Accepted, At, Strip, Text, Stops, Readable;
      s := SoundRest(inp, level, start, Op(op, a, b), e.pos);
    } else {
      s := a;
    }
  }

  lemma {:induction false} SoundSymbol(inp: Input, p: nat) returns (s: Source)
    requires inp.Valid() && p <= |inp.toks| && Symbol(inp, p).Ok?
    ensures Accepted(inp, 3, p, Symbol(inp, p), s)
    decreases |inp.toks| - p, 1
  {
    hide Number, Rest, Operand, Chain;
    if inp.HasOp(1, p) {
      var c := SoundNumber(inp, p + 1);
      var op := inp.toks[p].code;
      s := Signed(op, c);
      assert inp.toks[p..Symbol(inp, p).pos] == [Mark(op)] + inp.toks[p + 1..Symbol(inp, p).pos];
    } else {
      s := SoundNumber(inp, p);
    }
  }

  lemma {:induction false} SoundNumber(inp: Input, p: nat) returns (s: Source)
    requires inp.Valid() && p <= |inp.toks| && Number(inp, p).Ok?
    ensures Accepted(inp, 4, p, Number(inp, p), s) && At(3, s)
    decreases |inp.toks| - p, 0
  {
    hide Rest, Operand, Chain;
    var r := Number(inp, p);
    if inp.toks[p].code == TYPE_STR {
      s := Lit(inp.toks[p]);
    } else if inp.takeVal(p).Ok? {
      s := Piece(r.exp.node, inp.toks[p..r.pos]);
    } else if inp.toks[p].code == TYPE_LP {
      var inner := Sound(inp, 0, p + 1);
      s := Paren(inner);
      assert inp.toks[p..r.pos] == [Mark(TYPE_LP)] + inp.toks[p + 1..r.pos - 1] + [Mark(TYPE_RP)];
    } else {
      s := Lit(inp.toks[p]);
    }
  }

  /** The parser finds exactly the texts of the grammar: it answers a tree and a place if and
      only if the tokens up to that place are a text for that tree, with no operator of its
      level or a tighter one after it. */
  lemma ParsesExactly(inp: Input, level: nat, p: nat, e: Exp, q: nat)
    requires inp.Valid() && level <= 2 && p <= |inp.toks|
    ensures Chain(inp, level, p) == Ok(e, q) <==> exists s :: Accepted(inp, level, p, Ok(e, q), s)
  {
    if Chain(inp, level, p) == Ok(e, q) {
      var s := Sound(inp, level, p);
    }
    if s :| Accepted(inp, level, p, Ok(e, q), s) {
      hide Chain, At, Strip, Readable;
      Parsed(inp, level, s, p);
    }
  }
}
