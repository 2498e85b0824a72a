/** The shape of the trees the grammar builds and the errors it reports:
    every tree, written out with full parentheses, parses back to itself;
    `*` and `/` bind tighter than `+` and `-` and both fold to the left; a
    sign is accepted only as the first token; and a missing operand, an
    unclosed parenthesis or a token left over fail with their messages. */
module Shapes {
  import opened Syntax
  import opened Lexer
  import opened Numbers
  import opened Grammar

  // One step of each grammar function, stated on its own so that the
  // proofs below unfold one rule at a time.

  lemma NumberStep(ts: seq<string>, pos: nat)
    requires pos < |ts| && IsNumber(Some(ts[pos]))
    ensures PrimaryExprAt(ts, pos) == Ok(Parsed(Number(ts[pos]), pos + 1))
  {
  }

  lemma ParenthesesStep(ts: seq<string>, pos: nat, e: Expr, n: nat)
    requires pos < |ts| && ts[pos] == "(" && ExprAt(ts, pos + 1) == Ok(Parsed(e, n))
    requires TokenAt(ts, n) == Some(")")
    ensures PrimaryExprAt(ts, pos) == Ok(Parsed(e, n + 1))
  {
  }

  lemma SignStep(ts: seq<string>, op: Op, e: Expr, n: nat)
    requires (op == Plus || op == Minus) && ts != [] && ts[0] == Symbol(op)
    requires PrimaryExprAt(ts, 1) == Ok(Parsed(e, n))
    ensures PrimaryExprAt(ts, 0) == Ok(Parsed(Binary(op, Number("0"), e), n))
  {
  }

  lemma MulFromPrimary(ts: seq<string>, pos: nat, e: Expr, n: nat)
    requires pos <= |ts| && PrimaryExprAt(ts, pos) == Ok(Parsed(e, n))
    ensures MulExprAt(ts, pos) == MulExprRest(ts, e, n)
  {
  }

  lemma ExprFromMul(ts: seq<string>, pos: nat, e: Expr, n: nat)
    requires pos <= |ts| && MulExprAt(ts, pos) == Ok(Parsed(e, n))
    ensures ExprAt(ts, pos) == ExprRest(ts, e, n)
  {
  }

  lemma MulStep(ts: seq<string>, acc: Expr, pos: nat, op: Op, e: Expr, n: nat)
    requires (op == Times || op == Divide) && pos < |ts| && ts[pos] == Symbol(op)
    requires PrimaryExprAt(ts, pos + 1) == Ok(Parsed(e, n))
    ensures MulExprRest(ts, acc, pos) == MulExprRest(ts, Binary(op, acc, e), n)
  {
  }

  lemma AddStep(ts: seq<string>, acc: Expr, pos: nat, op: Op, e: Expr, n: nat)
    requires (op == Plus || op == Minus) && pos < |ts| && ts[pos] == Symbol(op)
    requires MulExprAt(ts, pos + 1) == Ok(Parsed(e, n))
    ensures ExprRest(ts, acc, pos) == ExprRest(ts, Binary(op, acc, e), n)
  {
  }

  lemma MulStops(ts: seq<string>, acc: Expr, pos: nat)
    requires pos <= |ts| && !IsMulOp(TokenAt(ts, pos))
    ensures MulExprRest(ts, acc, pos) == Ok(Parsed(acc, pos))
  {
  }

  lemma AddStops(ts: seq<string>, acc: Expr, pos: nat)
    requires pos <= |ts| && !IsAddOp(TokenAt(ts, pos))
    ensures ExprRest(ts, acc, pos) == Ok(Parsed(acc, pos))
  {
  }

  /** A primary that is followed by no operator is a whole Expr. */
  lemma PrimaryIsExpr(ts: seq<string>, pos: nat, e: Expr, n: nat)
    requires pos <= |ts| && PrimaryExprAt(ts, pos) == Ok(Parsed(e, n))
    requires !IsMulOp(TokenAt(ts, n)) && !IsAddOp(TokenAt(ts, n))
    ensures ExprAt(ts, pos) == Ok(Parsed(e, n))
  {
    MulFromPrimary(ts, pos, e, n);
    MulStops(ts, e, n);
    ExprFromMul(ts, pos, e, n);
    AddStops(ts, e, n);
  }

  lemma PrimaryFails(ts: seq<string>, pos: nat)
    requires pos <= |ts| && !IsNumber(TokenAt(ts, pos)) && TokenAt(ts, pos) != Some("(")
    requires pos > 0 || !IsSign(TokenAt(ts, pos))
    ensures PrimaryExprAt(ts, pos) == Err(ExpectedPrimary)
  {
  }

  lemma ParenthesisUnclosed(ts: seq<string>, pos: nat, e: Expr, n: nat)
    requires pos < |ts| && ts[pos] == "(" && ExprAt(ts, pos + 1) == Ok(Parsed(e, n))
    requires TokenAt(ts, n) != Some(")")
    ensures PrimaryExprAt(ts, pos) == Err(ExpectedParenthesis)
  {
  }

  lemma ExprFailsFromPrimary(ts: seq<string>, pos: nat, m: string)
    requires pos <= |ts| && PrimaryExprAt(ts, pos) == Err(m)
    ensures MulExprAt(ts, pos) == Err(m) && ExprAt(ts, pos) == Err(m)
  {
  }

  lemma MulStepFails(ts: seq<string>, acc: Expr, pos: nat, m: string)
    requires pos < |ts| && IsMulOp(Some(ts[pos])) && PrimaryExprAt(ts, pos + 1) == Err(m)
    ensures MulExprRest(ts, acc, pos) == Err(m)
  {
  }

  lemma AddStepFails(ts: seq<string>, acc: Expr, pos: nat, m: string)
    requires pos < |ts| && IsAddOp(Some(ts[pos])) && MulExprAt(ts, pos + 1) == Err(m)
    ensures ExprRest(ts, acc, pos) == Err(m)
  {
  }

  lemma ParseFails(ts: seq<string>, m: string)
    requires ExprAt(ts, 0) == Err(m)
    ensures ParseTokens(ts) == Err(m)
  {
  }

  lemma ParseWhole(ts: seq<string>, e: Expr)
    requires ExprAt(ts, 0) == Ok(Parsed(e, |ts|))
    ensures ParseTokens(ts) == Ok(e)
  {
  }

  lemma ParseLeftover(ts: seq<string>, e: Expr, n: nat)
    requires n < |ts| && ExprAt(ts, 0) == Ok(Parsed(e, n))
    ensures ParseTokens(ts) == Err(Unexpected(ts[n]))
  {
  }

  /** A first primary, an operator, and then an operand that fails: the
      whole parse fails with the operand's message. */
  lemma OperandFails(ts: seq<string>, e: Expr, n: nat, op: Op, m: string)
    requires n < |ts| && ts[n] == Symbol(op)
    requires PrimaryExprAt(ts, 0) == Ok(Parsed(e, n)) && PrimaryExprAt(ts, n + 1) == Err(m)
    ensures ParseTokens(ts) == Err(m)
  {
    MulFromPrimary(ts, 0, e, n);
    if op == Times || op == Divide {
      MulStepFails(ts, e, n, m);
    } else {
      MulStops(ts, e, n);
      ExprFromMul(ts, 0, e, n);
      ExprFailsFromPrimary(ts, n + 1, m);
      AddStepFails(ts, e, n, m);
    }
    ParseFails(ts, m);
  }

  /** The tokens of a tree with every operation in parentheses. */
  function Render(e: Expr): seq<string>
  {
    match e
    case Number(v) => [v]
    case Binary(op, l, r) => ["("] + Render(l) + [Symbol(op)] + Render(r) + [")"]
  }

  /** `piece` occurs in `ts` from `pos` on. */
  predicate At(ts: seq<string>, pos: nat, piece: seq<string>)
  {
    pos + |piece| <= |ts| && ts[pos..pos + |piece|] == piece
  }

  lemma AtSplit(ts: seq<string>, pos: nat, a: seq<string>, b: seq<string>)
    requires At(ts, pos, a + b)
    ensures At(ts, pos, a) && At(ts, pos + |a|, b)
  {
    var w := ts[pos..pos + |a| + |b|];
    assert ts[pos..pos + |a|] == w[..|a|];
    assert ts[pos + |a|..pos + |a| + |b|] == w[|a|..];
  }

  lemma AtOne(ts: seq<string>, pos: nat, t: string)
    requires At(ts, pos, [t])
    ensures pos < |ts| && ts[pos] == t
  {
    assert ts[pos] == ts[pos..pos + 1][0];
  }

  lemma AtWhole(ts: seq<string>)
    ensures At(ts, 0, ts)
  {
  }

  /** Where the pieces of `( left o right )` sit when it starts at `pos`. */
  lemma BracketedPieces(ts: seq<string>, pos: nat, left: seq<string>, o: string, right: seq<string>)
    requires At(ts, pos, ["("] + left + [o] + right + [")"])
    ensures var m := pos + 1 + |left|; var n := m + 1 + |right|;
      && n < |ts|
      && ts[pos] == "("
      && At(ts, pos + 1, left)
      && ts[m] == o
      && At(ts, m + 1, right)
      && ts[n] == ")"
  {
    var a := ["("] + left;
    var b := a + [o];
    var c := b + right;
    AtSplit(ts, pos, c, [")"]);
    AtSplit(ts, pos, b, right);
    AtSplit(ts, pos, a, [o]);
    AtSplit(ts, pos, ["("], left);
    AtOne(ts, pos, "(");
    AtOne(ts, pos + 1 + |left|, o);
    AtOne(ts, pos + 1 + |left| + 1 + |right|, ")");
  }

  /** Where the pieces of a rendered operation sit when it starts at `pos`. */
  lemma RenderPieces(ts: seq<string>, pos: nat, op: Op, l: Expr, r: Expr)
    requires At(ts, pos, Render(Binary(op, l, r)))
    ensures var m := pos + 1 + |Render(l)|; var n := m + 1 + |Render(r)|;
      && n < |ts|
      && ts[pos] == "("
      && At(ts, pos + 1, Render(l))
      && ts[m] == Symbol(op)
      && At(ts, m + 1, Render(r))
      && ts[n] == ")"
  {
    assert Render(Binary(op, l, r)) == ["("] + Render(l) + [Symbol(op)] + Render(r) + [")"];
    BracketedPieces(ts, pos, Render(l), Symbol(op), Render(r));
  }

  /** A rendered tree with numeric leaves, wherever it sits in the tokens,
      is read back by PrimaryExpr as that very tree. */
  lemma {:induction false} RenderParses(ts: seq<string>, pos: nat, e: Expr)
    requires NumericLeaves(e) && At(ts, pos, Render(e))
    ensures PrimaryExprAt(ts, pos) == Ok(Parsed(e, pos + |Render(e)|))
    decreases e, 4
  {
    match e
    case Number(v) =>
      AtOne(ts, pos, v);
      NumberStep(ts, pos);
    case Binary(op, l, r) =>
      RenderedOperationParses(ts, pos, op, l, r);
  }

  lemma {:induction false} RenderedOperationParses(ts: seq<string>, pos: nat, op: Op, l: Expr, r: Expr)
    requires NumericLeaves(l) && NumericLeaves(r) && At(ts, pos, Render(Binary(op, l, r)))
    ensures PrimaryExprAt(ts, pos) == Ok(Parsed(Binary(op, l, r), pos + |Render(Binary(op, l, r))|))
    decreases Binary(op, l, r), 3
  {
    var n := pos + 1 + |Render(l)| + 1 + |Render(r)|;
    RenderedInside(ts, pos, op, l, r);
    ParenthesesStep(ts, pos, Binary(op, l, r), n);
    assert |Render(Binary(op, l, r))| == n + 1 - pos;
  }

  /** Inside the parentheses of a rendered operation is one Expr. */
  lemma {:induction false} RenderedInside(ts: seq<string>, pos: nat, op: Op, l: Expr, r: Expr)
    requires NumericLeaves(l) && NumericLeaves(r) && At(ts, pos, Render(Binary(op, l, r)))
    ensures var n := pos + 1 + |Render(l)| + 1 + |Render(r)|;
      n < |ts| && ts[pos] == "(" && TokenAt(ts, n) == Some(")")
      && ExprAt(ts, pos + 1) == Ok(Parsed(Binary(op, l, r), n))
    decreases Binary(op, l, r), 2
  {
    var m := pos + 1 + |Render(l)|;
    var n := m + 1 + |Render(r)|;
    RenderedOperands(ts, pos, op, l, r);
    InnerOperation(ts, pos + 1, op, l, r, m, n);
  }

  /** The two operands of a rendered operation are read back as primaries. */
  lemma {:induction false} RenderedOperands(ts: seq<string>, pos: nat, op: Op, l: Expr, r: Expr)
    requires NumericLeaves(l) && NumericLeaves(r) && At(ts, pos, Render(Binary(op, l, r)))
    ensures var m := pos + 1 + |Render(l)|; var n := m + 1 + |Render(r)|;
      n < |ts| && ts[pos] == "(" && ts[m] == Symbol(op) && TokenAt(ts, n) == Some(")")
      && PrimaryExprAt(ts, pos + 1) == Ok(Parsed(l, m))
      && PrimaryExprAt(ts, m + 1) == Ok(Parsed(r, n))
    decreases Binary(op, l, r), 1
  {
    var n := pos + 1 + |Render(l)| + 1 + |Render(r)|;
    RenderPieces(ts, pos, op, l, r);
    assert TokenAt(ts, n) == Some(")");
    LeftOperand(ts, pos, op, l, r);
    RightOperand(ts, pos, op, l, r);
  }

  lemma {:induction false} LeftOperand(ts: seq<string>, pos: nat, op: Op, l: Expr, r: Expr)
    requires NumericLeaves(l) && At(ts, pos, Render(Binary(op, l, r)))
    ensures pos + 1 + |Render(l)| < |ts|
    ensures PrimaryExprAt(ts, pos + 1) == Ok(Parsed(l, pos + 1 + |Render(l)|))
    decreases Binary(op, l, r), 0
  {
    RenderPieces(ts, pos, op, l, r);
    RenderParses(ts, pos + 1, l);
  }

  lemma {:induction false} RightOperand(ts: seq<string>, pos: nat, op: Op, l: Expr, r: Expr)
    requires NumericLeaves(r) && At(ts, pos, Render(Binary(op, l, r)))
    ensures var m := pos + 1 + |Render(l)|;
      m + 1 + |Render(r)| < |ts| && PrimaryExprAt(ts, m + 1) == Ok(Parsed(r, m + 1 + |Render(r)|))
    decreases Binary(op, l, r), 0
  {
    RenderPieces(ts, pos, op, l, r);
    RenderParses(ts, pos + 1 + |Render(l)| + 1, r);
  }

  /** Two primaries `l op r` with no operator after them are one Expr,
      whatever the level of `op`. */
  lemma InnerOperation(ts: seq<string>, pos: nat, op: Op, l: Expr, r: Expr, m: nat, n: nat)
    requires pos <= m < n <= |ts| && ts[m] == Symbol(op)
    requires !IsMulOp(TokenAt(ts, n)) && !IsAddOp(TokenAt(ts, n))
    requires PrimaryExprAt(ts, pos) == Ok(Parsed(l, m))
    requires PrimaryExprAt(ts, m + 1) == Ok(Parsed(r, n))
    ensures ExprAt(ts, pos) == Ok(Parsed(Binary(op, l, r), n))
  {
    MulFromPrimary(ts, pos, l, m);
    if op == Times || op == Divide {
      MulStep(ts, l, m, op, r, n);
      MulStops(ts, Binary(op, l, r), n);
      ExprFromMul(ts, pos, Binary(op, l, r), n);
      AddStops(ts, Binary(op, l, r), n);
    } else {
      MulStops(ts, l, m);
      ExprFromMul(ts, pos, l, m);
      MulFromPrimary(ts, m + 1, r, n);
      MulStops(ts, r, n);
      AddStep(ts, l, m, op, r, n);
      AddStops(ts, Binary(op, l, r), n);
    }
  }

  /** Parsing is a left inverse of rendering: every tree with numeric leaves,
      written with full parentheses, parses to itself. */
  lemma RenderRoundTrip(e: Expr)
    requires NumericLeaves(e)
    ensures ParseTokens(Render(e)) == Ok(e)
  {
    var ts := Render(e);
    AtWhole(ts);
    RenderParses(ts, 0, e);
    PrimaryIsExpr(ts, 0, e, |ts|);
  }

  /** Every leaf is a numeral the tokenizer produces. */
  predicate NumeralLeaves(e: Expr)
  {
    match e
    case Number(v) => IsNumeral(v)
    case Binary(_, l, r) => NumeralLeaves(l) && NumeralLeaves(r)
  }

  lemma {:induction false} RenderIsTokens(e: Expr)
    requires NumeralLeaves(e)
    ensures NumericLeaves(e)
    ensures forall t :: t in Render(e) ==> IsToken(t)
  {
    match e
    case Number(v) =>
      NumbersAreNumerals(v);
    case Binary(op, l, r) =>
      RenderIsTokens(l);
      RenderIsTokens(r);
      assert IsToken(Symbol(op)) && IsToken("(") && IsToken(")");
  }

  /** The whole pipeline inverts printing: a tree whose leaves are numerals,
      printed with full parentheses and a space after each token, goes
      through `tokenize` and `parse` back to the same tree. */
  lemma PrintedTreeRoundTrip(e: Expr)
    requires NumeralLeaves(e)
    ensures ParseTokens(Tokens(Spaced(Render(e)))) == Ok(e)
  {
    RenderIsTokens(e);
    SpacedTokensRoundTrip(Render(e));
    RenderRoundTrip(e);
  }

  /** Binds tighter: `*` and `/` over `+` and `-`. */
  predicate IsMultiplicative(op: Op) { op == Times || op == Divide }

  /** `a o1 b o2 c` groups to the left unless `o2` binds tighter than `o1`:
      `*` and `/` nest below `+` and `-`, and equal levels fold left. */
  lemma ThreeOperands(a: string, o1: Op, b: string, o2: Op, c: string)
    requires IsNumber(Some(a)) && IsNumber(Some(b)) && IsNumber(Some(c))
    ensures ParseTokens([a, Symbol(o1), b, Symbol(o2), c]) ==
      if IsMultiplicative(o1) || !IsMultiplicative(o2)
      then Ok(Binary(o2, Binary(o1, Number(a), Number(b)), Number(c)))
      else Ok(Binary(o1, Number(a), Binary(o2, Number(b), Number(c))))
  {
    var ts := [a, Symbol(o1), b, Symbol(o2), c];
    NumberStep(ts, 0);
    NumberStep(ts, 2);
    NumberStep(ts, 4);
    MulFromPrimary(ts, 0, Number(a), 1);
    if IsMultiplicative(o1) {
      MulStep(ts, Number(a), 1, o1, Number(b), 3);
      var ab := Binary(o1, Number(a), Number(b));
      if IsMultiplicative(o2) {
        MulStep(ts, ab, 3, o2, Number(c), 5);
        MulStops(ts, Binary(o2, ab, Number(c)), 5);
        ExprFromMul(ts, 0, Binary(o2, ab, Number(c)), 5);
        AddStops(ts, Binary(o2, ab, Number(c)), 5);
      } else {
        MulStops(ts, ab, 3);
        ExprFromMul(ts, 0, ab, 3);
        MulFromPrimary(ts, 4, Number(c), 5);
        MulStops(ts, Number(c), 5);
        AddStep(ts, ab, 3, o2, Number(c), 5);
        AddStops(ts, Binary(o2, ab, Number(c)), 5);
      }
    } else {
      MulStops(ts, Number(a), 1);
      ExprFromMul(ts, 0, Number(a), 1);
      MulFromPrimary(ts, 2, Number(b), 3);
      if IsMultiplicative(o2) {
        MulStep(ts, Number(b), 3, o2, Number(c), 5);
        var bc := Binary(o2, Number(b), Number(c));
        MulStops(ts, bc, 5);
        AddStep(ts, Number(a), 1, o1, bc, 5);
        AddStops(ts, Binary(o1, Number(a), bc), 5);
      } else {
        MulStops(ts, Number(b), 3);
        AddStep(ts, Number(a), 1, o1, Number(b), 3);
        var ab := Binary(o1, Number(a), Number(b));
        MulFromPrimary(ts, 4, Number(c), 5);
        MulStops(ts, Number(c), 5);
        AddStep(ts, ab, 3, o2, Number(c), 5);
        AddStops(ts, Binary(o2, ab, Number(c)), 5);
      }
    }
  }

  /** No tokens: no primary to start with. */
  lemma EmptyInput()
    ensures ParseTokens([]) == Err(ExpectedPrimary)
  {
    PrimaryFails([], 0);
    ExprFailsFromPrimary([], 0, ExpectedPrimary);
  }

  /** An operator with nothing after it fails with the primary message. */
  lemma MissingOperand(e: Expr, op: Op)
    requires NumericLeaves(e)
    ensures ParseTokens(Render(e) + [Symbol(op)]) == Err(ExpectedPrimary)
  {
    var ts := Render(e) + [Symbol(op)];
    var n := |Render(e)|;
    AtWhole(ts);
    AtSplit(ts, 0, Render(e), [Symbol(op)]);
    AtOne(ts, n, Symbol(op));
    RenderParses(ts, 0, e);
    assert PrimaryExprAt(ts, 0) == Ok(Parsed(e, n));
    PrimaryFails(ts, n + 1);
    OperandFails(ts, e, n, op, ExpectedPrimary);
  }

  /** A `(` that is never closed fails with the parenthesis message. */
  lemma Unclosed(e: Expr)
    requires NumericLeaves(e)
    ensures ParseTokens(["("] + Render(e)) == Err(ExpectedParenthesis)
  {
    var ts := ["("] + Render(e);
    AtWhole(ts);
    AtSplit(ts, 0, ["("], Render(e));
    AtOne(ts, 0, "(");
    RenderParses(ts, 1, e);
    PrimaryIsExpr(ts, 1, e, |ts|);
    ParenthesisUnclosed(ts, 0, e, |ts|);
    ExprFailsFromPrimary(ts, 0, ExpectedParenthesis);
    ParseFails(ts, ExpectedParenthesis);
  }

  /** A complete expression followed by a token that is not an operator is
      not silently cut short: the parse fails and names that token. */
  lemma LeftOver(e: Expr, t: string, rest: seq<string>)
    requires NumericLeaves(e) && !IsAddOp(Some(t)) && !IsMulOp(Some(t))
    ensures ParseTokens(Render(e) + [t] + rest) == Err(Unexpected(t))
  {
    var ts := Render(e) + [t] + rest;
    var n := |Render(e)|;
    AtWhole(ts);
    AtSplit(ts, 0, Render(e) + [t], rest);
    AtSplit(ts, 0, Render(e), [t]);
    AtOne(ts, n, t);
    RenderParses(ts, 0, e);
    assert PrimaryExprAt(ts, 0) == Ok(Parsed(e, n));
    PrimaryIsExpr(ts, 0, e, n);
    ParseLeftover(ts, e, n);
  }

  /** A sign as the first token stands for `0 op operand`. */
  lemma SignFirst(op: Op, e: Expr)
    requires (op == Plus || op == Minus) && NumericLeaves(e)
    ensures ParseTokens([Symbol(op)] + Render(e)) == Ok(Binary(op, Number("0"), e))
  {
    var ts := [Symbol(op)] + Render(e);
    SignPieces(Symbol(op), Render(e));
    RenderParses(ts, 1, e);
    SignedWhole(ts, op, e);
  }

  /** Where the pieces of `[x] + b` sit. */
  lemma SignPieces(x: string, b: seq<string>)
    ensures At([x] + b, 1, b) && ([x] + b)[0] == x && |[x] + b| == 1 + |b|
  {
    assert ([x] + b)[1..1 + |b|] == b;
  }

  /** A sign and then a primary that ends the tokens. */
  lemma SignedWhole(ts: seq<string>, op: Op, e: Expr)
    requires (op == Plus || op == Minus) && ts != [] && ts[0] == Symbol(op)
    requires PrimaryExprAt(ts, 1) == Ok(Parsed(e, |ts|))
    ensures ParseTokens(ts) == Ok(Binary(op, Number("0"), e))
  {
    SignStep(ts, op, e, |ts|);
    PrimaryIsExpr(ts, 0, Binary(op, Number("0"), e), |ts|);
    ParseWhole(ts, Binary(op, Number("0"), e));
  }

  /** Anywhere but first, a sign is not an operand: `a op -b` fails. */
  lemma SignNotFirst(e: Expr, op: Op, sign: Op, rest: seq<string>)
    requires NumericLeaves(e) && (sign == Plus || sign == Minus)
    ensures ParseTokens(Render(e) + [Symbol(op), Symbol(sign)] + rest) == Err(ExpectedPrimary)
  {
    var ts := Render(e) + [Symbol(op), Symbol(sign)] + rest;
    OperatorSignPieces(Render(e), Symbol(op), Symbol(sign), rest);
    RenderParses(ts, 0, e);
    SignAfterOperator(ts, e, |Render(e)|, op, sign);
  }

  /** Where the pieces of `a + [o, g] + rest` sit. */
  lemma OperatorSignPieces(a: seq<string>, o: string, g: string, rest: seq<string>)
    ensures var ts := a + [o, g] + rest;
      At(ts, 0, a) && |a| + 1 < |ts| && ts[|a|] == o && ts[|a| + 1] == g
  {
    assert (a + [o, g] + rest)[0..|a|] == a;
  }

  /** A primary, an operator, then a sign: the sign is no operand. */
  lemma SignAfterOperator(ts: seq<string>, e: Expr, n: nat, op: Op, sign: Op)
    requires (sign == Plus || sign == Minus) && n + 1 < |ts|
    requires ts[n] == Symbol(op) && ts[n + 1] == Symbol(sign)
    requires PrimaryExprAt(ts, 0) == Ok(Parsed(e, n))
    ensures ParseTokens(ts) == Err(ExpectedPrimary)
  {
    PrimaryFails(ts, n + 1);
    OperandFails(ts, e, n, op, ExpectedPrimary);
  }

  /** A primary, an operator and a primary that ends the tokens: the
      parse is that one operation. */
  lemma OperationOfPrimaries(ts: seq<string>, a: Expr, n: nat, op: Op, b: Expr)
    requires n < |ts| && ts[n] == Symbol(op)
    requires PrimaryExprAt(ts, 0) == Ok(Parsed(a, n)) && PrimaryExprAt(ts, n + 1) == Ok(Parsed(b, |ts|))
    ensures ParseTokens(ts) == Ok(Binary(op, a, b))
  {
    InnerOperation(ts, 0, op, a, b, n, |ts|);
    ParseWhole(ts, Binary(op, a, b));
  }

  /** Where the pieces of `a op b` sit in its tokens. */
  lemma OperationPieces(a: seq<string>, op: string, b: seq<string>)
    ensures At(a + [op] + b, 0, a) && At(a + [op] + b, |a| + 1, b)
    ensures (a + [op] + b)[|a|] == op && |a + [op] + b| == |a| + 1 + |b|
  {
    var ts := a + [op] + b;
    AtWhole(ts);
    AtSplit(ts, 0, a + [op], b);
    AtSplit(ts, 0, a, [op]);
    AtOne(ts, |a|, op);
  }

  /** Two rendered operands joined by an operator parse to that operation. */
  lemma Operation(a: Expr, op: Op, b: Expr)
    requires NumericLeaves(a) && NumericLeaves(b)
    ensures ParseTokens(Render(a) + [Symbol(op)] + Render(b)) == Ok(Binary(op, a, b))
  {
    var ts := Render(a) + [Symbol(op)] + Render(b);
    OperationPieces(Render(a), Symbol(op), Render(b));
    RenderParses(ts, 0, a);
    RenderParses(ts, |Render(a)| + 1, b);
    OperationOfPrimaries(ts, a, |Render(a)|, op, b);
  }
}
