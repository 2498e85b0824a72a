# A verified model of the four-operation expression parser

`parser.js` is a small calculator for arithmetic expressions, and this project models it in Dafny. The calculator has three stages:

- **`tokenize`** runs a global regular expression with `exec` until it returns null. It collects group 1 of each match, which is a numeral or one character of `()*/+-`.
- **`Parser`** is an object that holds the tokens and a cursor `position`. `peek` and `consume` work the cursor. The three recursive-descent methods `parsePrimaryExpr`, `parseMulExpr` and `parseExpr` build a tree, and `parse` checks that every token was used.
- **`evaluate`** folds the tree, applying `parseFloat` at the leaves.

The model follows the same structure:

- `syntax.dfy` holds the tree (`Expr`), the operators, `Option`/`Result` and the three error messages.
- `lexer.dfy` models the regular expression as functions. These are `MatchAt` (one match attempt at one position), `Exec` (the leftmost match from `lastIndex`) and a reference reading `TokensFrom`. The `Tokenize` method is the source's `exec` loop, proved to return `Tokens(code)`. The group `(:?\.[0-9]+)` is modelled as written: an optional `:`, then `.` and digits.
- `numbers.dfy` holds the part of `parseFloat` the calculator relies on, and `isNumber`.
- `grammar.dfy` is the grammar as functions of the tokens and a position: `PrimaryExprAt`, `MulExprAt`, `ExprAt` and `ParseFrom`.
- `parser.dfy` holds the `Parser` class. Its `tokens` never change and its `position` only `Consume` moves. Each parse method peeks and consumes as the source does. Each is proved to return what the matching grammar function gives from the position where it started, and to leave the cursor where that function says.
- `reading.dfy` and `shapes.dfy` prove what the grammar promises:
  - the order of the leaves;
  - precedence and left association;
  - sign handling;
  - each error message;
  - that parsing inverts printing.
- `evaluator.dfy` evaluates over exact reals, with None for a division by zero.
- `tokenizing.dfy` and `examples.dfy` state the cases of `tests/parser.spec.js` on the model.

A thrown `SyntaxError` is an `Err` value carrying the same message, and every caller returns it at once.

## Model

| member | source | states |
|---|---|---|
| Lexer.MatchAt | parser.js:18 | a match attempted at `i` starts at `i`, ends after it within the text and captures a token; one is found whenever a digit or an operation character sits at `i` |
| Lexer.Exec | parser.js:18-20 | `exec` from `lastIndex` returns the leftmost match: no token can start between `lastIndex` and the match, and null means no token can start anywhere after `lastIndex` |
| Lexer.ScanToken | parser.js:18 | group 1 captures a token that is literally the text at that position, and no digit follows a numeral (`[0-9]+` is greedy) |
| Lexer.ScanTokenGreedy | parser.js:18 | the optional group `(:?\.[0-9]+)?` is greedy too: a numeral of bare digits is never followed by a `.digits` or `:.digits` it could have taken |
| Lexer.ExecFindsNextToken | parser.js:18-22 | one `exec` yields exactly the next token of the reference reading and continues where that reading continues; null means the reading has nothing left |
| Lexer.Tokenize | parser.js:15-24 | the `exec` loop returns the reference tokens of the input, and every token is an operation character or a numeral `digits(:?.digits)?` |
| Lexer.TokensKeepOrder | parser.js:18-23 | tokenizing loses no digit and no operation character and keeps them in their order; other characters are dropped unless they are a numeral's `.` or `:` |
| Lexer.TokensHaveNoSpace | parser.js:18 | no token contains whitespace |
| Lexer.TokensOfConcat | parser.js:18-22 | the tokens of `a + b` are the tokens of `a` followed by the tokens of `b` when no numeral can run across the join |
| Lexer.TokenizesToItself | parser.js:18 | a single token, tokenized again, is exactly that token |
| Lexer.SpacedTokensRoundTrip | parser.js:15-24 | tokens written out with spaces tokenize back to the same tokens |
| Lexer.RetokenizeIsIdentity | parser.js:15-24 | tokenizing is idempotent: spacing out the tokens and tokenizing again gives the same tokens |
| Lexer.PiecesTokenize | parser.js:18-23 | text made of skipped characters and whole tokens tokenizes to exactly those tokens, in order |
| Numbers.ParseFloat | parser.js:12 | `parseFloat` gives a number exactly when the text starts with a digit, and that number is never negative |
| Numbers.IsNumberIsParsable | parser.js:11-13 | `isNumber` (`Numbers.IsNumber`) holds exactly when `parseFloat` is not NaN, and is false for `undefined` past the last token |
| Numbers.NumbersAreNumerals | parser.js:11-13 | among tokenizer tokens, `isNumber` accepts exactly the numerals and rejects the operation characters |
| Numbers.ParseDigits | parser.js:12 | a run of digits reads as its decimal value |
| Numbers.ParseDecimal | parser.js:12 | `d.f` reads as `d + f / 10^len(f)` |
| Numbers.ParseColonDecimal | parser.js:18 | `d:.f` is a single numeral token, but `parseFloat` stops at the colon, so its value is `d` |
| Numbers.ParseDecimalString | parser.js:12 | the decimal numeral of `n` reads as `n` |
| Grammar.PrimaryExprAt | parser.js:46-65 | a primary consumes at least one token, stays within the tokens and has numeric leaves; it fails only with `expected )` or the primary message |
| Grammar.MulExprAt | parser.js:74-84 | a MulExpr consumes at least one token and stops only where no `*` or `/` follows; it has the same error set |
| Grammar.ExprAt | parser.js:92-102 | an Expr consumes at least one token and stops only where no operator follows; it has the same error set |
| Grammar.ParseFrom | parser.js:104-113 | a successful parse has numeric leaves; a failure is a grammar message or `unexpected '<t>'` for a later token `t` that is not an operator |
| Parsing.Parser.constructor | parser.js:26-32 | the tokens are those of the input, every one a token shape, and `position` starts at 0 |
| Parsing.Parser.Peek | parser.js:33-35 | the token at the cursor, or None (`undefined`) exactly when the cursor is at or past the end |
| Parsing.Parser.Consume | parser.js:36-38 | the cursor moves on by exactly one |
| Parsing.Parser.ParsePrimaryExpr | parser.js:46-65 | returns `PrimaryExprAt` from the starting position, leaves the cursor after the primary on success, and never moves the cursor back or past the end |
| Parsing.Parser.ParseMulExpr | parser.js:74-84 | the `while` loop returns `MulExprAt` from the starting position and leaves the cursor after it; the cursor stays within the tokens |
| Parsing.Parser.ParseExpr | parser.js:92-102 | the `while` loop returns `ExprAt` from the starting position and leaves the cursor after it; the cursor stays within the tokens |
| Parsing.Parser.Parse | parser.js:104-113 | returns `ParseFrom` from the starting position; on success every token has been consumed |
| Reading.ParseReadsInOrder | parser.js:46-102 | a parsed tree read left to right is the token sequence without its parentheses, after a `0` when the input starts with a sign |
| Shapes.RenderRoundTrip | parser.js:46-113 | parsing inverts printing: every tree with numeric leaves, printed with each operation in parentheses, parses back to itself |
| Shapes.PrintedTreeRoundTrip | parser.js:15-113 | the same holds through the tokenizer, for trees whose leaves are numerals |
| Shapes.ThreeOperands | parser.js:74-102 | `a o1 b o2 c` groups to the left unless `o2` is `*` or `/` and `o1` is `+` or `-`, when it groups to the right |
| Shapes.Operation | parser.js:74-102 | two printed operands joined by an operator parse to that one operation |
| Shapes.EmptyInput | parser.js:62-64 | no tokens fails with the primary message |
| Shapes.MissingOperand | parser.js:62-64 | an operator with nothing after it fails with the primary message |
| Shapes.Unclosed | parser.js:54-59 | a `(` that is never closed fails with `expected )` |
| Shapes.LeftOver | parser.js:104-111 | a complete expression followed by a token that is not an operator fails with `unexpected '<that token>'` |
| Shapes.SignFirst | parser.js:51-53 | a leading `+` or `-` before an operand parses as `0 op operand` |
| Shapes.SignNotFirst | parser.js:51-64 | anywhere but the first position, a sign after an operator is not an operand: the parse fails with the primary message |
| Evaluation.Apply | parser.js:119-122 | an operation has no real value exactly when it divides by zero |
| Evaluation.Evaluate | parser.js:116-124 | a tree has a value only if all its leaves are numbers, and a tree of numbers without a division always has one |
| Evaluation.EvaluateDefined | parser.js:116-124 | a parsed tree has a value exactly when none of its divisions is by zero |
| Evaluation.SignValue | parser.js:51-53 | the tree of a leading sign, `0 - x` or `0 + x`, has the value of `x` negated or unchanged |
| TokenExamples.TokenizeDecimals | tests/parser.spec.js:15-18 | `0.1  +222 *(3.45 / 1888888)` gives the nine tokens the test expects |
| TokenExamples.TokenizeNoise | tests/parser.spec.js:20-24 | `#ABC & 9,2 / ? 2222 = - 11 _ ^ * 3` keeps only `9 2 / 2222 - 11 * 3` |
| Examples.NewParserPosition | tests/parser.spec.js:10-13 | a new parser on `2` starts at position 0 |
| Examples.ParseSum | tests/parser.spec.js:29-42 | `2 + 2` parses to `+` of two numbers `2` |
| Examples.ParseSumWithParser | tests/parser.spec.js:29-42 | the same through the `Parser` object's `parse` method |
| Examples.ParseDifference | tests/parser.spec.js:44-57 | `2   - 2` parses to `-` of `2` and `2` |
| Examples.ParseProduct | tests/parser.spec.js:59-72 | `2*2` parses to `*` of `2` and `2` |
| Examples.ParseQuotient | tests/parser.spec.js:74-87 | `  2/2   ` parses to `/` of `2` and `2` |
| Examples.ParseSingleParenthesis | tests/parser.spec.js:93-113 | `(1 + 1) * 2` parses to `*` of `1 + 1` and `2` |
| Examples.ParseNested | tests/parser.spec.js:115-142 | `(1 + (2 * 2)) / 3` parses to the nested tree of the test |
| Examples.ParseUnbalanced | tests/parser.spec.js:144-147 | `(1 + (2 * 2) / 3` fails with `expected )` |
| Examples.ParseMissingOperand | tests/parser.spec.js:149-152 | `1 +` fails with the primary message |
| Examples.ParseLeftOver | tests/parser.spec.js:154-157 | `1 2 3` fails with `unexpected '2'` |
| Examples.EvaluateSum | tests/parser.spec.js:164-167 | `2 + 2` parses and evaluates to 4 |
| Examples.EvaluateDifference | tests/parser.spec.js:169-172 | `100   -1` parses and evaluates to 99 |
| Examples.EvaluateProduct | tests/parser.spec.js:174-177 | `6*8` parses and evaluates to 48 |
| Examples.EvaluateQuotient | tests/parser.spec.js:179-182 | `  21/3  ` parses and evaluates to 7 |
| Examples.EvaluateNegative | tests/parser.spec.js:184-187 | `  -1-1   ` parses and evaluates to -2 |
| Examples.EvaluateParenthesisFirst | tests/parser.spec.js:191-194 | `(1+2)*3` parses and evaluates to 9 |
| Examples.EvaluateDoubleParenthesis | tests/parser.spec.js:196-199 | `(10-(2*3))/2` parses and evaluates to 2 |
| Examples.EvaluatePriority | tests/parser.spec.js:201-204 | `1+2*3` parses and evaluates to 7 |

## Left out

- app.js is not part of this model. It is a chat-client wrapper around the parser, with network I/O, process arguments and console output.
- Evaluation.Evaluate: values are exact reals, not IEEE-754 doubles. There is no rounding, and a division by zero gives None where JavaScript gives an infinity or NaN.
- Numbers.ParseFloat models only the texts the tokenizer can produce: digits, then optionally `.` and digits or `:.` and digits (for the latter it reads only the leading digits). Exponents, signs, leading spaces, `Infinity` and hexadecimal are not modelled.
- Lexer.Exec models the one regular expression of `tokenize`, not a general regular-expression engine.
- The `instanceof` check in the constructor, which makes `Parser(code)` without `new` behave like `new Parser(code)`, is not modelled (parser.js:27-29).
- The argument that `parseExpr` passes to `consume` is ignored by `consume` and is not modelled (parser.js:96).
- Parsing.Parser.Parse: the position the cursor is left at after a `SyntaxError` is not specified.
- Parsing.Parser.ParsePrimaryExpr: after a `SyntaxError` the method only promises that the cursor did not move back or past the end.
- Parsing.Parser.ParseMulExpr: after a `SyntaxError` the method only promises that the cursor did not move back or past the end.
- Parsing.Parser.ParseExpr: after a `SyntaxError` the method only promises that the cursor did not move back or past the end.
- Leaf values are kept as the token text, as in the source. Turning a result into a JavaScript number string is not modelled.
