/** The inputs of the repository's test file and the tokens `tokenize`
    gives for them (tests/parser.spec.js). Each input is cut by hand into
    pieces: characters the regex skips, then a token. For a longer input,
    `<Name>Delimited` checks that each piece is skipped characters and one
    whole token, `<Name>Spelled` that the pieces written out give the input
    back (`<Name>Text` does the character-level comparison on literals
    alone), and `<Name>Emitted` lists the tokens of the pieces;
    `PiecesTokenize` then yields the tokens of the input. */
module TokenExamples {
  import opened Lexer

  /** "0.1  +222 *(3.45 / 1888888)" cut into pieces. */
  function DecimalsInput(): seq<Piece>
  {
    [Piece("", "0.1"), Piece("  ", "+"), Piece("", "222"), Piece(" ", "*"), Piece("", "("), Piece("", "3.45"), Piece(" ", "/"), Piece(" ", "1888888"), Piece("", ")")]
  }

  lemma DecimalsInputDelimitedFrom4()
    ensures Delimited(DecimalsInput(), 4, "")
  {
    DecimalIsToken("3", "45");
    assert "3" + "." + "45" == "3.45";
  }

  lemma DecimalsInputDelimited()
    ensures Delimited(DecimalsInput(), 0, "")
  {
    DecimalsInputDelimitedFrom4();
    DecimalIsToken("0", "1");
    assert "0" + "." + "1" == "0.1";
  }

  lemma DecimalsInputText()
    ensures "" + "0.1" + ("  " + "+" + ("" + "222" + (" " + "*" + ("" + "(" + ("" + "3.45" + (" " + "/" + (" " + "1888888" + ("" + ")" + (""))))))))) + "" == "0.1  +222 *(3.45 / 1888888)"
  {
  }

  lemma DecimalsInputSpelled()
    ensures Spelled(DecimalsInput(), 0) + "" == "0.1  +222 *(3.45 / 1888888)"
  {
    assert Spelled(DecimalsInput(), 0) == "" + "0.1" + ("  " + "+" + ("" + "222" + (" " + "*" + ("" + "(" + ("" + "3.45" + (" " + "/" + (" " + "1888888" + ("" + ")" + ("")))))))));
    DecimalsInputText();
  }

  lemma DecimalsInputEmitted()
    ensures Emitted(DecimalsInput(), 0) == ["0.1", "+", "222", "*", "(", "3.45", "/", "1888888", ")"]
  {
    assert Emitted(DecimalsInput(), 0) == ["0.1"] + (["+"] + (["222"] + (["*"] + (["("] + (["3.45"] + (["/"] + (["1888888"] + ([")"] + ([])))))))));
  }

  /** The constructor test: numerals with fractions, operators and parentheses, with and without spaces. */
  lemma TokenizeDecimals(code: string)
    requires code == "0.1  +222 *(3.45 / 1888888)"
    ensures Tokens(code) == ["0.1", "+", "222", "*", "(", "3.45", "/", "1888888", ")"]
  {
    DecimalsInputDelimited();
    DecimalsInputSpelled();
    DecimalsInputEmitted();
    PiecesTokenize(DecimalsInput(), 0, "");
  }

  /** "#ABC & 9,2 / ? 2222 = - 11 _ ^ * 3" cut into pieces. */
  function NoisyInput(): seq<Piece>
  {
    [Piece("#ABC & ", "9"), Piece(",", "2"), Piece(" ", "/"), Piece(" ? ", "2222"), Piece(" = ", "-"), Piece(" ", "11"), Piece(" _ ^ ", "*"), Piece(" ", "3")]
  }

  lemma NoisyInputDelimitedFrom4()
    ensures Delimited(NoisyInput(), 4, "")
  {
  }

  lemma NoisyInputDelimited()
    ensures Delimited(NoisyInput(), 0, "")
  {
    NoisyInputDelimitedFrom4();
  }

  lemma NoisyInputText()
    ensures "#ABC & " + "9" + ("," + "2" + (" " + "/" + (" ? " + "2222" + (" = " + "-" + (" " + "11" + (" _ ^ " + "*" + (" " + "3" + ("")))))))) + "" == "#ABC & 9,2 / ? 2222 = - 11 _ ^ * 3"
  {
  }

  lemma NoisyInputSpelled()
    ensures Spelled(NoisyInput(), 0) + "" == "#ABC & 9,2 / ? 2222 = - 11 _ ^ * 3"
  {
    assert Spelled(NoisyInput(), 0) == "#ABC & " + "9" + ("," + "2" + (" " + "/" + (" ? " + "2222" + (" = " + "-" + (" " + "11" + (" _ ^ " + "*" + (" " + "3" + (""))))))));
    NoisyInputText();
  }

  lemma NoisyInputEmitted()
    ensures Emitted(NoisyInput(), 0) == ["9", "2", "/", "2222", "-", "11", "*", "3"]
  {
    assert Emitted(NoisyInput(), 0) == ["9"] + (["2"] + (["/"] + (["2222"] + (["-"] + (["11"] + (["*"] + (["3"] + ([]))))))));
  }

  /** Only digits and operation characters are kept, in their order. */
  lemma TokenizeNoise(code: string)
    requires code == "#ABC & 9,2 / ? 2222 = - 11 _ ^ * 3"
    ensures Tokens(code) == ["9", "2", "/", "2222", "-", "11", "*", "3"]
  {
    NoisyInputDelimited();
    NoisyInputSpelled();
    NoisyInputEmitted();
    PiecesTokenize(NoisyInput(), 0, "");
  }

  /** Spaces around an operator are dropped. */
  lemma TokenizeSum(code: string)
    requires code == "2 + 2"
    ensures Tokens(code) == ["2", "+", "2"]
  {
    var ps := [Piece("", "2"), Piece(" ", "+"), Piece(" ", "2")];
    assert Delimited(ps, 0, "");
    assert Spelled(ps, 0) + "" == code;
    PiecesTokenize(ps, 0, "");
  }

  /** Three numerals separated by spaces stay three tokens. */
  lemma TokenizeLeftOver(code: string)
    requires code == "1 2 3"
    ensures Tokens(code) == ["1", "2", "3"]
  {
    var ps := [Piece("", "1"), Piece(" ", "2"), Piece(" ", "3")];
    assert Delimited(ps, 0, "");
    assert Spelled(ps, 0) + "" == code;
    PiecesTokenize(ps, 0, "");
  }

  /** An operator at the end is a token like any other. */
  lemma TokenizeMissingOperand(code: string)
    requires code == "1 +"
    ensures Tokens(code) == ["1", "+"]
  {
    var ps := [Piece("", "1"), Piece(" ", "+")];
    assert Delimited(ps, 0, "");
    assert Spelled(ps, 0) + "" == code;
    PiecesTokenize(ps, 0, "");
  }

  /** "  -1-1   " cut into pieces. */
  function NegativeInput(): seq<Piece>
  {
    [Piece("  ", "-"), Piece("", "1"), Piece("", "-"), Piece("", "1")]
  }

  lemma NegativeInputDelimitedFrom2()
    ensures Delimited(NegativeInput(), 2, "   ")
  {
  }

  lemma NegativeInputDelimited()
    ensures Delimited(NegativeInput(), 0, "   ")
  {
    NegativeInputDelimitedFrom2();
  }

  lemma NegativeInputText()
    ensures "  " + "-" + ("" + "1" + ("" + "-" + ("" + "1" + ("")))) + "   " == "  -1-1   "
  {
  }

  lemma NegativeInputSpelled()
    ensures Spelled(NegativeInput(), 0) + "   " == "  -1-1   "
  {
    assert Spelled(NegativeInput(), 0) == "  " + "-" + ("" + "1" + ("" + "-" + ("" + "1" + (""))));
    NegativeInputText();
  }

  lemma NegativeInputEmitted()
    ensures Emitted(NegativeInput(), 0) == ["-", "1", "-", "1"]
  {
    assert Emitted(NegativeInput(), 0) == ["-"] + (["1"] + (["-"] + (["1"] + ([]))));
  }

  /** Leading and trailing spaces are dropped; a `-` is always its own token. */
  lemma TokenizeNegative(code: string)
    requires code == "  -1-1   "
    ensures Tokens(code) == ["-", "1", "-", "1"]
  {
    NegativeInputDelimited();
    NegativeInputSpelled();
    NegativeInputEmitted();
    PiecesTokenize(NegativeInput(), 0, "   ");
  }

  /** "1+2*3" cut into pieces. */
  function PriorityInput(): seq<Piece>
  {
    [Piece("", "1"), Piece("", "+"), Piece("", "2"), Piece("", "*"), Piece("", "3")]
  }

  lemma PriorityInputDelimitedFrom2()
    ensures Delimited(PriorityInput(), 2, "")
  {
  }

  lemma PriorityInputDelimited()
    ensures Delimited(PriorityInput(), 0, "")
  {
    PriorityInputDelimitedFrom2();
  }

  lemma PriorityInputText()
    ensures "" + "1" + ("" + "+" + ("" + "2" + ("" + "*" + ("" + "3" + (""))))) + "" == "1+2*3"
  {
  }

  lemma PriorityInputSpelled()
    ensures Spelled(PriorityInput(), 0) + "" == "1+2*3"
  {
    assert Spelled(PriorityInput(), 0) == "" + "1" + ("" + "+" + ("" + "2" + ("" + "*" + ("" + "3" + ("")))));
    PriorityInputText();
  }

  lemma PriorityInputEmitted()
    ensures Emitted(PriorityInput(), 0) == ["1", "+", "2", "*", "3"]
  {
    assert Emitted(PriorityInput(), 0) == ["1"] + (["+"] + (["2"] + (["*"] + (["3"] + ([])))));
  }

  /** Without spaces every operator still splits the numerals. */
  lemma TokenizePriority(code: string)
    requires code == "1+2*3"
    ensures Tokens(code) == ["1", "+", "2", "*", "3"]
  {
    PriorityInputDelimited();
    PriorityInputSpelled();
    PriorityInputEmitted();
    PiecesTokenize(PriorityInput(), 0, "");
  }

  /** Several spaces are skipped like one. */
  lemma TokenizeDifference(code: string)
    requires code == "2   - 2"
    ensures Tokens(code) == ["2", "-", "2"]
  {
    var ps := [Piece("", "2"), Piece("   ", "-"), Piece(" ", "2")];
    assert Delimited(ps, 0, "");
    assert Spelled(ps, 0) + "" == code;
    PiecesTokenize(ps, 0, "");
  }

  /** An operator between numerals splits them. */
  lemma TokenizeProduct(code: string)
    requires code == "2*2"
    ensures Tokens(code) == ["2", "*", "2"]
  {
    var ps := [Piece("", "2"), Piece("", "*"), Piece("", "2")];
    assert Delimited(ps, 0, "");
    assert Spelled(ps, 0) + "" == code;
    PiecesTokenize(ps, 0, "");
  }

  /** Spaces before and after the expression are dropped. */
  lemma TokenizeQuotient(code: string)
    requires code == "  2/2   "
    ensures Tokens(code) == ["2", "/", "2"]
  {
    var ps := [Piece("  ", "2"), Piece("", "/"), Piece("", "2")];
    assert Delimited(ps, 0, "   ");
    assert Spelled(ps, 0) + "   " == code;
    PiecesTokenize(ps, 0, "   ");
  }

  /** A `-` after a numeral is an operator token; the tokenizer does not join it to the next numeral. */
  lemma TokenizeHundredMinusOne(code: string)
    requires code == "100   -1"
    ensures Tokens(code) == ["100", "-", "1"]
  {
    var ps := [Piece("", "100"), Piece("   ", "-"), Piece("", "1")];
    assert Delimited(ps, 0, "");
    assert Spelled(ps, 0) + "" == code;
    PiecesTokenize(ps, 0, "");
  }

  /** Single-digit numerals around `*`. */
  lemma TokenizeSixTimesEight(code: string)
    requires code == "6*8"
    ensures Tokens(code) == ["6", "*", "8"]
  {
    var ps := [Piece("", "6"), Piece("", "*"), Piece("", "8")];
    assert Delimited(ps, 0, "");
    assert Spelled(ps, 0) + "" == code;
    PiecesTokenize(ps, 0, "");
  }

  /** Numerals of two digits are one token. */
  lemma TokenizeTwentyOneOverThree(code: string)
    requires code == "  21/3  "
    ensures Tokens(code) == ["21", "/", "3"]
  {
    var ps := [Piece("  ", "21"), Piece("", "/"), Piece("", "3")];
    assert Delimited(ps, 0, "  ");
    assert Spelled(ps, 0) + "  " == code;
    PiecesTokenize(ps, 0, "  ");
  }

  /** "(1 + 1) * 2" cut into pieces. */
  function SingleParenthesisInput(): seq<Piece>
  {
    [Piece("", "("), Piece("", "1"), Piece(" ", "+"), Piece(" ", "1"), Piece("", ")"), Piece(" ", "*"), Piece(" ", "2")]
  }

  lemma SingleParenthesisInputDelimitedFrom3()
    ensures Delimited(SingleParenthesisInput(), 3, "")
  {
  }

  lemma SingleParenthesisInputDelimited()
    ensures Delimited(SingleParenthesisInput(), 0, "")
  {
    SingleParenthesisInputDelimitedFrom3();
  }

  lemma SingleParenthesisInputText()
    ensures "" + "(" + ("" + "1" + (" " + "+" + (" " + "1" + ("" + ")" + (" " + "*" + (" " + "2" + (""))))))) + "" == "(1 + 1) * 2"
  {
  }

  lemma SingleParenthesisInputSpelled()
    ensures Spelled(SingleParenthesisInput(), 0) + "" == "(1 + 1) * 2"
  {
    assert Spelled(SingleParenthesisInput(), 0) == "" + "(" + ("" + "1" + (" " + "+" + (" " + "1" + ("" + ")" + (" " + "*" + (" " + "2" + ("")))))));
    SingleParenthesisInputText();
  }

  lemma SingleParenthesisInputEmitted()
    ensures Emitted(SingleParenthesisInput(), 0) == ["(", "1", "+", "1", ")", "*", "2"]
  {
    assert Emitted(SingleParenthesisInput(), 0) == ["("] + (["1"] + (["+"] + (["1"] + ([")"] + (["*"] + (["2"] + ([])))))));
  }

  /** One pair of parentheses. */
  lemma TokenizeSingleParenthesis(code: string)
    requires code == "(1 + 1) * 2"
    ensures Tokens(code) == ["(", "1", "+", "1", ")", "*", "2"]
  {
    SingleParenthesisInputDelimited();
    SingleParenthesisInputSpelled();
    SingleParenthesisInputEmitted();
    PiecesTokenize(SingleParenthesisInput(), 0, "");
  }

  /** "(1+2)*3" cut into pieces. */
  function ParenthesisFirstInput(): seq<Piece>
  {
    [Piece("", "("), Piece("", "1"), Piece("", "+"), Piece("", "2"), Piece("", ")"), Piece("", "*"), Piece("", "3")]
  }

  lemma ParenthesisFirstInputDelimitedFrom3()
    ensures Delimited(ParenthesisFirstInput(), 3, "")
  {
  }

  lemma ParenthesisFirstInputDelimited()
    ensures Delimited(ParenthesisFirstInput(), 0, "")
  {
    ParenthesisFirstInputDelimitedFrom3();
  }

  lemma ParenthesisFirstInputText()
    ensures "" + "(" + ("" + "1" + ("" + "+" + ("" + "2" + ("" + ")" + ("" + "*" + ("" + "3" + (""))))))) + "" == "(1+2)*3"
  {
  }

  lemma ParenthesisFirstInputSpelled()
    ensures Spelled(ParenthesisFirstInput(), 0) + "" == "(1+2)*3"
  {
    assert Spelled(ParenthesisFirstInput(), 0) == "" + "(" + ("" + "1" + ("" + "+" + ("" + "2" + ("" + ")" + ("" + "*" + ("" + "3" + ("")))))));
    ParenthesisFirstInputText();
  }

  lemma ParenthesisFirstInputEmitted()
    ensures Emitted(ParenthesisFirstInput(), 0) == ["(", "1", "+", "2", ")", "*", "3"]
  {
    assert Emitted(ParenthesisFirstInput(), 0) == ["("] + (["1"] + (["+"] + (["2"] + ([")"] + (["*"] + (["3"] + ([])))))));
  }

  /** Parentheses without spaces. */
  lemma TokenizeParenthesisFirst(code: string)
    requires code == "(1+2)*3"
    ensures Tokens(code) == ["(", "1", "+", "2", ")", "*", "3"]
  {
    ParenthesisFirstInputDelimited();
    ParenthesisFirstInputSpelled();
    ParenthesisFirstInputEmitted();
    PiecesTokenize(ParenthesisFirstInput(), 0, "");
  }

  /** "(1 + (2 * 2) / 3" cut into pieces. */
  function UnbalancedInput(): seq<Piece>
  {
    [Piece("", "("), Piece("", "1"), Piece(" ", "+"), Piece(" ", "("), Piece("", "2"), Piece(" ", "*"), Piece(" ", "2"), Piece("", ")"), Piece(" ", "/"), Piece(" ", "3")]
  }

  lemma UnbalancedInputDelimitedFrom5()
    ensures Delimited(UnbalancedInput(), 5, "")
  {
  }

  lemma UnbalancedInputDelimited()
    ensures Delimited(UnbalancedInput(), 0, "")
  {
    UnbalancedInputDelimitedFrom5();
  }

  lemma UnbalancedInputText()
    ensures "" + "(" + ("" + "1" + (" " + "+" + (" " + "(" + ("" + "2" + (" " + "*" + (" " + "2" + ("" + ")" + (" " + "/" + (" " + "3" + ("")))))))))) + "" == "(1 + (2 * 2) / 3"
  {
  }

  lemma UnbalancedInputSpelled()
    ensures Spelled(UnbalancedInput(), 0) + "" == "(1 + (2 * 2) / 3"
  {
    assert Spelled(UnbalancedInput(), 0) == "" + "(" + ("" + "1" + (" " + "+" + (" " + "(" + ("" + "2" + (" " + "*" + (" " + "2" + ("" + ")" + (" " + "/" + (" " + "3" + (""))))))))));
    UnbalancedInputText();
  }

  lemma UnbalancedInputEmitted()
    ensures Emitted(UnbalancedInput(), 0) == ["(", "1", "+", "(", "2", "*", "2", ")", "/", "3"]
  {
    assert Emitted(UnbalancedInput(), 0) == ["("] + (["1"] + (["+"] + (["("] + (["2"] + (["*"] + (["2"] + ([")"] + (["/"] + (["3"] + ([]))))))))));
  }

  /** Parentheses are tokens whether or not they balance. */
  lemma TokenizeUnbalanced(code: string)
    requires code == "(1 + (2 * 2) / 3"
    ensures Tokens(code) == ["(", "1", "+", "(", "2", "*", "2", ")", "/", "3"]
  {
    UnbalancedInputDelimited();
    UnbalancedInputSpelled();
    UnbalancedInputEmitted();
    PiecesTokenize(UnbalancedInput(), 0, "");
  }

  /** "(1 + (2 * 2)) / 3" cut into pieces. */
  function NestedInput(): seq<Piece>
  {
    [Piece("", "("), Piece("", "1"), Piece(" ", "+"), Piece(" ", "("), Piece("", "2"), Piece(" ", "*"), Piece(" ", "2"), Piece("", ")"), Piece("", ")"), Piece(" ", "/"), Piece(" ", "3")]
  }

  lemma NestedInputDelimitedFrom5()
    ensures Delimited(NestedInput(), 5, "")
  {
  }

  lemma NestedInputDelimited()
    ensures Delimited(NestedInput(), 0, "")
  {
    NestedInputDelimitedFrom5();
  }

  lemma NestedInputText()
    ensures "" + "(" + ("" + "1" + (" " + "+" + (" " + "(" + ("" + "2" + (" " + "*" + (" " + "2" + ("" + ")" + ("" + ")" + (" " + "/" + (" " + "3" + (""))))))))))) + "" == "(1 + (2 * 2)) / 3"
  {
  }

  lemma NestedInputSpelled()
    ensures Spelled(NestedInput(), 0) + "" == "(1 + (2 * 2)) / 3"
  {
    assert Spelled(NestedInput(), 0) == "" + "(" + ("" + "1" + (" " + "+" + (" " + "(" + ("" + "2" + (" " + "*" + (" " + "2" + ("" + ")" + ("" + ")" + (" " + "/" + (" " + "3" + ("")))))))))));
    NestedInputText();
  }

  lemma NestedInputEmitted()
    ensures Emitted(NestedInput(), 0) == ["(", "1", "+", "(", "2", "*", "2", ")", ")", "/", "3"]
  {
    assert Emitted(NestedInput(), 0) == ["("] + (["1"] + (["+"] + (["("] + (["2"] + (["*"] + (["2"] + ([")"] + ([")"] + (["/"] + (["3"] + ([])))))))))));
  }

  /** Nested parentheses. */
  lemma TokenizeNested(code: string)
    requires code == "(1 + (2 * 2)) / 3"
    ensures Tokens(code) == ["(", "1", "+", "(", "2", "*", "2", ")", ")", "/", "3"]
  {
    NestedInputDelimited();
    NestedInputSpelled();
    NestedInputEmitted();
    PiecesTokenize(NestedInput(), 0, "");
  }

  /** "(10-(2*3))/2" cut into pieces. */
  function DoubleParenthesisInput(): seq<Piece>
  {
    [Piece("", "("), Piece("", "10"), Piece("", "-"), Piece("", "("), Piece("", "2"), Piece("", "*"), Piece("", "3"), Piece("", ")"), Piece("", ")"), Piece("", "/"), Piece("", "2")]
  }

  lemma DoubleParenthesisInputDelimitedFrom5()
    ensures Delimited(DoubleParenthesisInput(), 5, "")
  {
  }

  lemma DoubleParenthesisInputDelimited()
    ensures Delimited(DoubleParenthesisInput(), 0, "")
  {
    DoubleParenthesisInputDelimitedFrom5();
  }

  lemma DoubleParenthesisInputText()
    ensures "" + "(" + ("" + "10" + ("" + "-" + ("" + "(" + ("" + "2" + ("" + "*" + ("" + "3" + ("" + ")" + ("" + ")" + ("" + "/" + ("" + "2" + (""))))))))))) + "" == "(10-(2*3))/2"
  {
  }

  lemma DoubleParenthesisInputSpelled()
    ensures Spelled(DoubleParenthesisInput(), 0) + "" == "(10-(2*3))/2"
  {
    assert Spelled(DoubleParenthesisInput(), 0) == "" + "(" + ("" + "10" + ("" + "-" + ("" + "(" + ("" + "2" + ("" + "*" + ("" + "3" + ("" + ")" + ("" + ")" + ("" + "/" + ("" + "2" + ("")))))))))));
    DoubleParenthesisInputText();
  }

  lemma DoubleParenthesisInputEmitted()
    ensures Emitted(DoubleParenthesisInput(), 0) == ["(", "10", "-", "(", "2", "*", "3", ")", ")", "/", "2"]
  {
    assert Emitted(DoubleParenthesisInput(), 0) == ["("] + (["10"] + (["-"] + (["("] + (["2"] + (["*"] + (["3"] + ([")"] + ([")"] + (["/"] + (["2"] + ([])))))))))));
  }

  /** Nested parentheses without spaces. */
  lemma TokenizeDoubleParenthesis(code: string)
    requires code == "(10-(2*3))/2"
    ensures Tokens(code) == ["(", "10", "-", "(", "2", "*", "3", ")", ")", "/", "2"]
  {
    DoubleParenthesisInputDelimited();
    DoubleParenthesisInputSpelled();
    DoubleParenthesisInputEmitted();
    PiecesTokenize(DoubleParenthesisInput(), 0, "");
  }
}
