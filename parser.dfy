/** The `Parser` object: the tokens of its input and a cursor `position`
    that only `consume` moves. Each `parse...` method works by peeking and
    consuming, as the source does, and is proved to compute what the
    matching grammar function says from the position it started at. A
    `SyntaxError` thrown by the source is an `Err` result here, returned at
    once by every caller. */
module Parsing {
  import opened Syntax
  import opened Lexer
  import opened Numbers
  import opened Grammar

  class Parser {
    const tokens: seq<string>
    var position: nat

    /** The cursor never runs past the end of the tokens. */
    predicate Valid()
      reads this
    {
      position <= |tokens|
    }

    /** `new Parser(code)`: tokenize, and start at the first token. */
    constructor(code: string)
      ensures tokens == Tokens(code) && position == 0
      ensures forall t :: t in tokens ==> IsToken(t)
    {
      var results := Tokenize(code);
      tokens := results;
      position := 0;
    }

    /** `peek()`: the token at the cursor, or None (`undefined`) past the end. */
    function Peek(): (r: Option<string>)
      reads this
      ensures r.Some? <==> position < |tokens|
      ensures r.Some? ==> r.value == tokens[position]
    {
      if position < |tokens| then Some(tokens[position]) else None
    }

    /** `consume()`: move the cursor one token on, with no check. */
    method Consume()
      modifies this
      ensures position == old(position) + 1
    {
      position := position + 1;
    }

    method ParsePrimaryExpr() returns (r: Result<Expr>)
      requires Valid()
      modifies this
      ensures Valid() && old(position) <= position
      ensures r == TreeOf(PrimaryExprAt(tokens, old(position)))
      ensures r.Ok? ==> position == PrimaryExprAt(tokens, old(position)).value.next
      decreases |tokens| - position, 0
    {
      var token := Peek();
      if IsNumber(token) {
        Consume();
        return Ok(Number(token.value));
      } else if position == 0 && (token == Some("-") || token == Some("+")) {
        Consume();
        var right := ParsePrimaryExpr();
        if right.Err? {
          return Err(right.message);
        }
        return Ok(Binary(if token.value == "-" then Minus else Plus, Number("0"), right.value));
      } else if token == Some("(") {
        Consume();
        var expr := ParseExpr();
        if expr.Err? {
          return expr;
        }
        if Peek() != Some(")") {
          return Err(ExpectedParenthesis);
        }
        Consume();
        return expr;
      } else {
        return Err(ExpectedPrimary);
      }
    }

    method ParseMulExpr() returns (r: Result<Expr>)
      requires Valid()
      modifies this
      ensures Valid() && old(position) <= position
      ensures r == TreeOf(MulExprAt(tokens, old(position)))
      ensures r.Ok? ==> position == MulExprAt(tokens, old(position)).value.next
      decreases |tokens| - position, 2
    {
      var first := ParsePrimaryExpr();
      if first.Err? {
        return first;
      }
      var expr := first.value;
      var token := Peek();
      while token == Some("*") || token == Some("/")
        invariant Valid() && old(position) < position
        invariant token == Peek()
        invariant MulExprRest(tokens, expr, position) == MulExprAt(tokens, old(position))
        decreases |tokens| - position
      {
        Consume();
        var rightHandSide := ParsePrimaryExpr();
        if rightHandSide.Err? {
          return rightHandSide;
        }
        expr := Binary(if token.value == "*" then Times else Divide, expr, rightHandSide.value);
        token := Peek();
      }
      return Ok(expr);
    }

    method ParseExpr() returns (r: Result<Expr>)
      requires Valid()
      modifies this
      ensures Valid() && old(position) <= position
      ensures r == TreeOf(ExprAt(tokens, old(position)))
      ensures r.Ok? ==> position == ExprAt(tokens, old(position)).value.next
      decreases |tokens| - position, 4
    {
      var first := ParseMulExpr();
      if first.Err? {
        return first;
      }
      var expr := first.value;
      var token := Peek();
      while token == Some("+") || token == Some("-")
        invariant Valid() && old(position) < position
        invariant token == Peek()
        invariant ExprRest(tokens, expr, position) == ExprAt(tokens, old(position))
        decreases |tokens| - position
      {
        Consume();
        var rightHandSide := ParseMulExpr();
        if rightHandSide.Err? {
          return rightHandSide;
        }
        expr := Binary(if token.value == "+" then Plus else Minus, expr, rightHandSide.value);
        token := Peek();
      }
      return Ok(expr);
    }

    /** `parse()`: an Expr, and then every token must have been consumed. */
    method Parse() returns (r: Result<Expr>)
      requires Valid()
      modifies this
      ensures Valid()
      ensures r == ParseFrom(tokens, old(position))
      ensures r.Ok? ==> position == |tokens|
    {
      r := ParseExpr();
      if r.Err? {
        return;
      }
      if position != |tokens| {
        return Err(Unexpected(Peek().value));
      }
    }
  }
}
