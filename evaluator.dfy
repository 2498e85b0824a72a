/** `evaluate`: the value of a tree, folding `parseFloat` at the leaves and
    the four operations at the nodes. Values are exact reals; where
    JavaScript would produce NaN (a leaf that is not a number) or an
    infinity (a division by zero) the result here is None. */
module Evaluation {
  import opened Syntax
  import opened Lexer
  import opened Numbers
  import opened Grammar

  /** One operation on two values; dividing by zero has no real value. */
  function Apply(op: Op, a: real, b: real): (r: Option<real>)
    ensures r.None? <==> op == Divide && b == 0.0
  {
    match op
    case Plus => Some(a + b)
    case Minus => Some(a - b)
    case Times => Some(a * b)
    case Divide => if b == 0.0 then None else Some(a / b)
  }

  /** Only a tree whose leaves are all numbers has a value, and such a
      tree without a division always has one. */
  function Evaluate(e: Expr): (r: Option<real>)
    ensures r.Some? ==> NumericLeaves(e)
    ensures NumericLeaves(e) && !HasDivision(e) ==> r.Some?
  {
    match e
    case Number(v) => ParseFloat(v)
    case Binary(op, l, r) =>
      match (Evaluate(l), Evaluate(r))
      case (Some(a), Some(b)) => Apply(op, a, b)
      case _ => None
  }

  /** The tree holds a `/` node. */
  predicate HasDivision(e: Expr)
  {
    match e
    case Number(_) => false
    case Binary(op, l, r) => op == Divide || HasDivision(l) || HasDivision(r)
  }

  /** Some division in the tree has a right operand whose value is zero. */
  predicate DividesByZero(e: Expr)
  {
    match e
    case Number(_) => false
    case Binary(op, l, r) =>
      DividesByZero(l) || DividesByZero(r) || (op == Divide && Evaluate(r) == Some(0.0))
  }

  /** A tree the parser builds has a value exactly when no division in it
      is by zero. */
  lemma {:induction false} EvaluateDefined(e: Expr)
    requires NumericLeaves(e)
    ensures Evaluate(e).Some? <==> !DividesByZero(e)
  {
    match e
    case Number(v) =>
      IsNumberIsParsable(Some(v));
    case Binary(op, l, r) =>
      EvaluateDefined(l);
      EvaluateDefined(r);
  }

  lemma ZeroValue()
    ensures ParseFloat("0") == Some(0.0)
  {
    assert IsDigits("0");
    ParseDigits("0");
    assert DigitsValue("0") == 0 by {
      assert "0"[..0] == [];
    }
  }

  /** The tree a leading sign stands for, `0 - x` or `0 + x`, has the value
      of `x` negated or unchanged. */
  lemma SignValue(op: Op, e: Expr, v: real)
    requires (op == Plus || op == Minus) && Evaluate(e) == Some(v)
    ensures Evaluate(Binary(op, Number("0"), e)) == Some(if op == Minus then -v else v)
  {
    ZeroValue();
  }
}
