/** The recursive-descent grammar of the parser, written as functions of
    the token sequence and the cursor position. `PrimaryExprAt`, `MulExprAt`
    and `ExprAt` are what `parsePrimaryExpr`, `parseMulExpr` and `parseExpr`
    compute from a given position; the `...Rest` functions are their `while`
    loops. A success carries the tree and the position after it. */
module Grammar {
  import opened Syntax
  import opened Numbers

  datatype Parsed = Parsed(tree: Expr, next: nat)

  /** `tokens[position]`: None past the end, where JavaScript gives `undefined`. */
  function TokenAt(ts: seq<string>, pos: nat): (r: Option<string>)
    ensures r.Some? <==> pos < |ts|
    ensures r.Some? ==> r.value == ts[pos]
  {
    if pos < |ts| then Some(ts[pos]) else None
  }

  /** Every leaf holds text that `parseFloat` reads as a number. */
  predicate NumericLeaves(e: Expr)
  {
    match e
    case Number(v) => IsNumber(Some(v))
    case Binary(_, l, r) => NumericLeaves(l) && NumericLeaves(r)
  }

  predicate IsSign(token: Option<string>) { token == Some("+") || token == Some("-") }

  predicate IsMulOp(token: Option<string>) { token == Some("*") || token == Some("/") }

  predicate IsAddOp(token: Option<string>) { token == Some("+") || token == Some("-") }

  /** The two messages a parse can fail with before the leftover check. */
  predicate IsGrammarError(m: string) { m == ExpectedPrimary || m == ExpectedParenthesis }

  /** PrimaryExpr: a number; a `+` or `-` sign, only at position 0, before a
      primary (read as `0 op primary`); or `( Expr )`. */
  function PrimaryExprAt(ts: seq<string>, pos: nat): (r: Result<Parsed>)
    requires pos <= |ts|
    ensures r.Ok? ==> pos < r.value.next <= |ts| && NumericLeaves(r.value.tree)
    ensures r.Err? ==> IsGrammarError(r.message)
    decreases |ts| - pos, 0
  {
    var token := TokenAt(ts, pos);
    if IsNumber(token) then
      Ok(Parsed(Number(token.value), pos + 1))
    else if pos == 0 && IsSign(token) then
      match PrimaryExprAt(ts, pos + 1)
      case Err(m) => Err(m)
      case Ok(p) =>
        Ok(Parsed(Binary(if token.value == "-" then Minus else Plus, Number("0"), p.tree), p.next))
    else if token == Some("(") then
      match ExprAt(ts, pos + 1)
      case Err(m) => Err(m)
      case Ok(p) =>
        if TokenAt(ts, p.next) != Some(")") then Err(ExpectedParenthesis)
        else Ok(Parsed(p.tree, p.next + 1))
    else
      Err(ExpectedPrimary)
  }

  /** MulExpr: a primary, then any number of `*` or `/` and a primary. */
  function MulExprAt(ts: seq<string>, pos: nat): (r: Result<Parsed>)
    requires pos <= |ts|
    ensures r.Ok? ==> pos < r.value.next <= |ts| && NumericLeaves(r.value.tree)
    ensures r.Ok? ==> !IsMulOp(TokenAt(ts, r.value.next))
    ensures r.Err? ==> IsGrammarError(r.message)
    decreases |ts| - pos, 2
  {
    match PrimaryExprAt(ts, pos)
    case Err(m) => Err(m)
    case Ok(p) => MulExprRest(ts, p.tree, p.next)
  }

  /** The loop of `parseMulExpr` with `expr == acc` and the cursor at `pos`. */
  function MulExprRest(ts: seq<string>, acc: Expr, pos: nat): (r: Result<Parsed>)
    requires pos <= |ts|
    ensures r.Ok? ==> pos <= r.value.next <= |ts|
    ensures r.Ok? && NumericLeaves(acc) ==> NumericLeaves(r.value.tree)
    ensures r.Ok? ==> !IsMulOp(TokenAt(ts, r.value.next))
    ensures r.Err? ==> IsGrammarError(r.message)
    decreases |ts| - pos, 1
  {
    var token := TokenAt(ts, pos);
    if IsMulOp(token) then
      match PrimaryExprAt(ts, pos + 1)
      case Err(m) => Err(m)
      case Ok(p) =>
        MulExprRest(ts, Binary(if token.value == "*" then Times else Divide, acc, p.tree), p.next)
    else
      Ok(Parsed(acc, pos))
  }

  /** Expr: a MulExpr, then any number of `+` or `-` and a MulExpr. */
  function ExprAt(ts: seq<string>, pos: nat): (r: Result<Parsed>)
    requires pos <= |ts|
    ensures r.Ok? ==> pos < r.value.next <= |ts| && NumericLeaves(r.value.tree)
    ensures r.Ok? ==> !IsMulOp(TokenAt(ts, r.value.next)) && !IsAddOp(TokenAt(ts, r.value.next))
    ensures r.Err? ==> IsGrammarError(r.message)
    decreases |ts| - pos, 4
  {
    match MulExprAt(ts, pos)
    case Err(m) => Err(m)
    case Ok(p) => ExprRest(ts, p.tree, p.next)
  }

  /** The loop of `parseExpr` with `expr == acc` and the cursor at `pos`. */
  function ExprRest(ts: seq<string>, acc: Expr, pos: nat): (r: Result<Parsed>)
    requires pos <= |ts|
    ensures r.Ok? ==> pos <= r.value.next <= |ts|
    ensures r.Ok? && NumericLeaves(acc) ==> NumericLeaves(r.value.tree)
    ensures r.Ok? ==> !IsAddOp(TokenAt(ts, r.value.next))
    ensures r.Ok? && r.value.next != pos ==> !IsMulOp(TokenAt(ts, r.value.next))
    ensures r.Err? ==> IsGrammarError(r.message)
    decreases |ts| - pos, 3
  {
    var token := TokenAt(ts, pos);
    if IsAddOp(token) then
      match MulExprAt(ts, pos + 1)
      case Err(m) => Err(m)
      case Ok(p) =>
        ExprRest(ts, Binary(if token.value == "+" then Plus else Minus, acc, p.tree), p.next)
    else
      Ok(Parsed(acc, pos))
  }

  /** `parse()` with the cursor at `pos`: an Expr that must use up every
      token; the first token left over is reported. */
  function ParseFrom(ts: seq<string>, pos: nat): (r: Result<Expr>)
    requires pos <= |ts|
    ensures r.Ok? ==> NumericLeaves(r.value)
    ensures r.Err? ==>
      || IsGrammarError(r.message)
      || exists k :: pos < k < |ts| && r.message == Unexpected(ts[k]) && !IsAddOp(Some(ts[k])) && !IsMulOp(Some(ts[k]))
  {
    match ExprAt(ts, pos)
    case Err(m) => Err(m)
    case Ok(p) => if p.next != |ts| then Err(Unexpected(ts[p.next])) else Ok(p.tree)
  }

  /** `new Parser(code).parse()` on the tokens of `code`. */
  function ParseTokens(ts: seq<string>): Result<Expr>
  {
    ParseFrom(ts, 0)
  }

  /** The tree of a successful parse, or its error. */
  function TreeOf(r: Result<Parsed>): Result<Expr>
  {
    match r
    case Ok(p) => Ok(p.tree)
    case Err(m) => Err(m)
  }
}
