/** Values shared by the three stages of the calculator: the optional and
    failing results, the expression tree the parser builds, and the texts of
    the parser's three syntax errors. */
module Syntax {

  datatype Option<+T> = None | Some(value: T)

  /** A parse either yields a value or throws a SyntaxError carrying a message. */
  datatype Result<+T> = Ok(value: T) | Err(message: string)

  /** The binary operators; a node's `type` in the source is the operator's own token. */
  datatype Op = Plus | Minus | Times | Divide

  /** A tree node: `{type: "number", value: token}` keeps the token's text,
      `{type: op, left, right}` owns its two operands. */
  datatype Expr = Number(value: string) | Binary(op: Op, left: Expr, right: Expr)

  /** The token an operator is written with. */
  function Symbol(op: Op): string
  {
    match op
    case Plus => "+"
    case Minus => "-"
    case Times => "*"
    case Divide => "/"
  }

  /** The operator a token names, if it names one. */
  function OpOf(token: string): (r: Option<Op>)
    ensures r.Some? ==> Symbol(r.value) == token
    ensures token in {"+", "-", "*", "/"} ==> r.Some?
  {
    if token == "+" then Some(Plus)
    else if token == "-" then Some(Minus)
    else if token == "*" then Some(Times)
    else if token == "/" then Some(Divide)
    else None
  }

  const ExpectedParenthesis: string := "expected )"
  const ExpectedPrimary: string := "expected a number, a variable, or parentheses"

  /** The message for a token left over after a complete expression. */
  function Unexpected(token: string): string
  {
    "unexpected '" + token + "'"
  }
}
