/** The parse and evaluate tests of tests/parser.spec.js, stated on the
    model: the input string, its tokens (from `TokenExamples`), the tree
    or error `parse()` gives, and the value `evaluate` gives the tree. */
module Examples {
  import opened Syntax
  import opened Lexer
  import opened Numbers
  import opened Grammar
  import opened Shapes
  import opened Parsing
  import opened Evaluation
  import opened TokenExamples

  /** A numeral token has the value of the whole number it spells. */
  lemma Value(n: nat, s: string)
    requires s == DecimalString(n)
    ensures ParseFloat(s) == Some(n as real)
  {
    ParseDecimalString(n);
  }

  // Parsing

  /** `2 + 2` is one addition of two numbers. */
  lemma ParseSum(code: string)
    requires code == "2 + 2"
    ensures ParseTokens(Tokens(code)) == Ok(Binary(Plus, Number("2"), Number("2")))
  {
    Operation(Number("2"), Plus, Number("2"));
    assert Render(Number("2")) + [Symbol(Plus)] + Render(Number("2")) == ["2", "+", "2"];
    TokenizeSum(code);
  }

  /** Two numerals around an operator make one node. */
  lemma SingleOperation(a: string, op: Op, b: string)
    requires IsNumber(Some(a)) && IsNumber(Some(b))
    ensures ParseTokens([a, Symbol(op), b]) == Ok(Binary(op, Number(a), Number(b)))
  {
    Operation(Number(a), op, Number(b));
    assert Render(Number(a)) + [Symbol(op)] + Render(Number(b)) == [a, Symbol(op), b];
  }

  lemma ParseDifference(code: string)
    requires code == "2   - 2"
    ensures ParseTokens(Tokens(code)) == Ok(Binary(Minus, Number("2"), Number("2")))
  {
    SingleOperation("2", Minus, "2");
    TokenizeDifference(code);
  }

  lemma ParseProduct(code: string)
    requires code == "2*2"
    ensures ParseTokens(Tokens(code)) == Ok(Binary(Times, Number("2"), Number("2")))
  {
    SingleOperation("2", Times, "2");
    TokenizeProduct(code);
  }

  lemma ParseQuotient(code: string)
    requires code == "  2/2   "
    ensures ParseTokens(Tokens(code)) == Ok(Binary(Divide, Number("2"), Number("2")))
  {
    SingleOperation("2", Divide, "2");
    TokenizeQuotient(code);
  }

  /** `new Parser("2 + 2").parse()`, run through the `Parser` object. */
  method ParseSumWithParser() returns (r: Result<Expr>)
    ensures r == Ok(Binary(Plus, Number("2"), Number("2")))
  {
    var p := new Parser("2 + 2");
    r := p.Parse();
    ParseSum("2 + 2");
  }

  /** A new parser starts at the first token. */
  method NewParserPosition() returns (position: nat)
    ensures position == 0
  {
    var p := new Parser("2");
    position := p.position;
  }

  /** A parenthesized sum multiplied: the product is at the root. */
  lemma ParseSingleParenthesis(code: string)
    requires code == "(1 + 1) * 2"
    ensures ParseTokens(Tokens(code)) == Ok(Binary(Times, Binary(Plus, Number("1"), Number("1")), Number("2")))
  {
    Operation(Binary(Plus, Number("1"), Number("1")), Times, Number("2"));
    assert Render(Binary(Plus, Number("1"), Number("1"))) + [Symbol(Times)] + Render(Number("2"))
      == ["(", "1", "+", "1", ")", "*", "2"];
    TokenizeSingleParenthesis(code);
  }

  /** The tree of `(1 + (2 * 2))`. */
  function Inner(): Expr
  {
    Binary(Plus, Number("1"), Binary(Times, Number("2"), Number("2")))
  }

  lemma NestedTokens()
    ensures Render(Inner()) + [Symbol(Divide)] + Render(Number("3"))
      == ["(", "1", "+", "(", "2", "*", "2", ")", ")", "/", "3"]
  {
  }

  /** Parentheses group first: the division is at the root. */
  lemma ParseNested(code: string)
    requires code == "(1 + (2 * 2)) / 3"
    ensures ParseTokens(Tokens(code)) == Ok(Binary(Divide, Inner(), Number("3")))
  {
    Operation(Inner(), Divide, Number("3"));
    NestedTokens();
    TokenizeNested(code);
  }

  /** In the tokens of `(1 + (2 * 2) / 3`, the product in parentheses
      divided by 3 runs to the end. */
  lemma UnbalancedQuotient(ts: seq<string>)
    requires ts == ["(", "1", "+", "(", "2", "*", "2", ")", "/", "3"]
    ensures MulExprAt(ts, 3) == Ok(Parsed(Binary(Divide, Binary(Times, Number("2"), Number("2")), Number("3")), 10))
  {
    var product := Binary(Times, Number("2"), Number("2"));
    assert ts[3..3 + |Render(product)|] == Render(product);
    RenderParses(ts, 3, product);
    MulFromPrimary(ts, 3, product, 8);
    NumberStep(ts, 9);
    MulStep(ts, product, 8, Divide, Number("3"), 10);
    MulStops(ts, Binary(Divide, product, Number("3")), 10);
  }

  /** After the first `(` an expression runs to the end and no `)` follows. */
  lemma UnbalancedInside(ts: seq<string>)
    requires ts == ["(", "1", "+", "(", "2", "*", "2", ")", "/", "3"]
    ensures ExprAt(ts, 1) ==
      Ok(Parsed(Binary(Plus, Number("1"), Binary(Divide, Binary(Times, Number("2"), Number("2")), Number("3"))), 10))
  {
    var quotient := Binary(Divide, Binary(Times, Number("2"), Number("2")), Number("3"));
    NumberStep(ts, 1);
    MulFromPrimary(ts, 1, Number("1"), 2);
    MulStops(ts, Number("1"), 2);
    ExprFromMul(ts, 1, Number("1"), 2);
    UnbalancedQuotient(ts);
    AddStep(ts, Number("1"), 2, Plus, quotient, 10);
    AddStops(ts, Binary(Plus, Number("1"), quotient), 10);
  }

  lemma UnbalancedFails(ts: seq<string>)
    requires ts == ["(", "1", "+", "(", "2", "*", "2", ")", "/", "3"]
    ensures ParseTokens(ts) == Err(ExpectedParenthesis)
  {
    UnbalancedInside(ts);
    ParenthesisUnclosed(ts, 0, Binary(Plus, Number("1"), Binary(Divide, Binary(Times, Number("2"), Number("2")), Number("3"))), 10);
    ExprFailsFromPrimary(ts, 0, ExpectedParenthesis);
    ParseFails(ts, ExpectedParenthesis);
  }

  /** An unclosed parenthesis is reported as `expected )`. */
  lemma ParseUnbalanced(code: string)
    requires code == "(1 + (2 * 2) / 3"
    ensures ParseTokens(Tokens(code)) == Err(ExpectedParenthesis)
  {
    TokenizeUnbalanced(code);
    UnbalancedFails(Tokens(code));
  }

  /** An operator with nothing after it is reported as a missing operand. */
  lemma ParseMissingOperand(code: string)
    requires code == "1 +"
    ensures ParseTokens(Tokens(code)) == Err(ExpectedPrimary)
  {
    MissingOperand(Number("1"), Plus);
    assert Render(Number("1")) + [Symbol(Plus)] == ["1", "+"];
    TokenizeMissingOperand(code);
  }

  /** Numbers side by side: the first is a whole expression and the second
      is reported as unexpected. */
  lemma ParseLeftOver(code: string)
    requires code == "1 2 3"
    ensures ParseTokens(Tokens(code)) == Err(Unexpected("2"))
  {
    LeftOver(Number("1"), "2", ["3"]);
    assert Render(Number("1")) + ["2"] + ["3"] == ["1", "2", "3"];
    TokenizeLeftOver(code);
  }

  // Evaluation

  lemma EvaluateSum(code: string)
    requires code == "2 + 2"
    ensures ParseTokens(Tokens(code)).Ok?
    ensures Evaluate(ParseTokens(Tokens(code)).value) == Some(4.0)
  {
    ParseSum(code);
    Value(2, "2");
  }

  lemma EvaluateDifference(code: string)
    requires code == "100   -1"
    ensures ParseTokens(Tokens(code)).Ok?
    ensures Evaluate(ParseTokens(Tokens(code)).value) == Some(99.0)
  {
    TokenizeHundredMinusOne(code);
    SingleOperation("100", Minus, "1");
    Value(100, "100");
    Value(1, "1");
  }

  lemma EvaluateProduct(code: string)
    requires code == "6*8"
    ensures ParseTokens(Tokens(code)).Ok?
    ensures Evaluate(ParseTokens(Tokens(code)).value) == Some(48.0)
  {
    TokenizeSixTimesEight(code);
    SingleOperation("6", Times, "8");
    Value(6, "6");
    Value(8, "8");
  }

  lemma EvaluateQuotient(code: string)
    requires code == "  21/3  "
    ensures ParseTokens(Tokens(code)).Ok?
    ensures Evaluate(ParseTokens(Tokens(code)).value) == Some(7.0)
  {
    TokenizeTwentyOneOverThree(code);
    SingleOperation("21", Divide, "3");
    Value(21, "21");
    Value(3, "3");
  }

  lemma EvaluateParenthesisFirst(code: string)
    requires code == "(1+2)*3"
    ensures ParseTokens(Tokens(code)).Ok?
    ensures Evaluate(ParseTokens(Tokens(code)).value) == Some(9.0)
  {
    var sum := Binary(Plus, Number("1"), Number("2"));
    Operation(sum, Times, Number("3"));
    assert Render(sum) + [Symbol(Times)] + Render(Number("3")) == ["(", "1", "+", "2", ")", "*", "3"];
    TokenizeParenthesisFirst(code);
    Value(1, "1");
    Value(2, "2");
    Value(3, "3");
  }

  /** The leading `-` is read as `0 - 1`. */
  lemma NegativeTree(ts: seq<string>)
    requires ts == ["-", "1", "-", "1"]
    ensures ParseTokens(ts) == Ok(Binary(Minus, Binary(Minus, Number("0"), Number("1")), Number("1")))
  {
    NumberStep(ts, 1);
    SignStep(ts, Minus, Number("1"), 2);
    NumberStep(ts, 3);
    OperationOfPrimaries(ts, Binary(Minus, Number("0"), Number("1")), 2, Minus, Number("1"));
  }

  lemma EvaluateNegative(code: string)
    requires code == "  -1-1   "
    ensures ParseTokens(Tokens(code)).Ok?
    ensures Evaluate(ParseTokens(Tokens(code)).value) == Some(-2.0)
  {
    TokenizeNegative(code);
    NegativeTree(Tokens(code));
    Value(1, "1");
    SignValue(Minus, Number("1"), 1.0);
  }

  /** `*` binds tighter than `+`. */
  lemma EvaluatePriority(code: string)
    requires code == "1+2*3"
    ensures ParseTokens(Tokens(code)).Ok?
    ensures Evaluate(ParseTokens(Tokens(code)).value) == Some(7.0)
  {
    TokenizePriority(code);
    ThreeOperands("1", Plus, "2", Times, "3");
    assert ["1", Symbol(Plus), "2", Symbol(Times), "3"] == ["1", "+", "2", "*", "3"];
    Value(1, "1");
    Value(2, "2");
    Value(3, "3");
  }

  /** The tree of `(10-(2*3))`. */
  function Difference(): Expr
  {
    Binary(Minus, Number("10"), Binary(Times, Number("2"), Number("3")))
  }

  lemma DoubleParenthesisTokens()
    ensures Render(Difference()) + [Symbol(Divide)] + Render(Number("2"))
      == ["(", "10", "-", "(", "2", "*", "3", ")", ")", "/", "2"]
  {
  }

  lemma DoubleParenthesisTree(code: string)
    requires code == "(10-(2*3))/2"
    ensures ParseTokens(Tokens(code)) == Ok(Binary(Divide, Difference(), Number("2")))
  {
    assert NumericLeaves(Difference()) by {
      assert IsDigit("10"[0]);
    }
    Operation(Difference(), Divide, Number("2"));
    DoubleParenthesisTokens();
    TokenizeDoubleParenthesis(code);
  }

  lemma EvaluateDoubleParenthesis(code: string)
    requires code == "(10-(2*3))/2"
    ensures ParseTokens(Tokens(code)).Ok?
    ensures Evaluate(ParseTokens(Tokens(code)).value) == Some(2.0)
  {
    DoubleParenthesisTree(code);
    Value(10, "10");
    Value(2, "2");
    Value(3, "3");
  }
}
