# calc.py expression pipeline in Dafny

This project models the expression core of `calc.py`, a command-line
calculator. The core takes one line of text through these steps:

1. `lex` turns the characters into tokens. The token kinds are numbers,
   constants, functions, the five binary operators, brackets, and `Bad`
   tokens that carry a lexical error.
2. `print_lex_errors` and the driver decide whether there were lexical
   errors. If there were, they are reported and nothing is evaluated.
3. `eval_lex_tokens` runs four stages:
   - it replaces each constant by its numeric text;
   - it rewrites a unary minus in front of an operand as `( 0 - x )`;
   - it converts infix to postfix with the shunting-yard algorithm: `+ -` and
     functions rank 1, `* /` rank 2, `^` rank 3, and all of them group to
     the left;
   - it evaluates the postfix list on a stack of decimals.

A run ends in one of three ways. Each is a value of `Diagnostics.Outcome`,
and `Calculator.Calculate` wraps it together with the lexical gate:

- a value;
- a list of reported errors, such as unknown tokens, unclosed brackets, too
  many or too few operators, division by zero, or failures of functions or
  powers;
- an uncaught Python exception, modelled as `Crash` with a reason:
  - an unknown constant;
  - `)` with no open bracket on the stack;
  - `decimal.Decimal` on a lexeme that is not a number;
  - an empty operand stack at the end.

Modules follow the program:

- `Tokens`: token kinds, the constant and function tables, character classes.
- `Lexer`: `lex`, the error count, `print_lex_errors`.
- `Rewrite`: constant substitution and the unary-minus rewrite.
- `Postfix`: the shunting-yard conversion.
- `Evaluator`: decimal parsing and postfix evaluation.
- `Calculator`: the whole pipeline and its general laws.
- `CalculatorCases`: concrete inputs run through the whole pipeline.
- `Diagnostics` and `Wrappers`: the shared result types.

Decimal values are exact reals. The library functions are parameters, and
so is `math.pow`:

- `apply(name, x)` returns a value, a domain error or another error;
- `power(b, e)` returns a value or nothing.

Each property is proved for every such oracle.

Where the code and the design description disagree, the model follows the
code:

- On a `)` with no `(` on the operator stack, the description says an
  "unmatched brackets" error is recorded. In the code, `operators_stack[-1]`
  raises `IndexError` first (calc.py:334-340). The error at calc.py:337 can
  never be reached. The model therefore crashes (`UnmatchedClose`).
- A number with a second decimal point becomes a `Bad` token that holds the
  text before that point. The lexer then starts a new number at the point:
  `1.2.3` gives `Bad "1.2"` and then `Number ".3"`.
- `numbers_stack[0]` (calc.py:455) is read only when no error was recorded.
  An empty operand stack is therefore a crash only when there are no errors,
  as for `""` or `()`. An operator that finds the stack empty records an
  error instead (calc.py:408-410).

## Model

| member | source | states |
|---|---|---|
| Lexer.ScanNumber | calc.py:99-123 | the number scan covers only digits and points, keeps at most one point, stops at the first non-number character, and flags a second point exactly at its position |
| Lexer.ScanWord | calc.py:124-136 | the identifier scan covers a maximal run of letters, digits and underscores |
| Lexer.NextToken | calc.py:93-201 | the token made at a non-space character starts there, and scanning resumes right after its last character |
| Lexer.NextTokenLexed | calc.py:99-201 | every token is one of: a number over number characters with at most one point; a `Bad` number ending just before a second point; a word classified as constant, function or unknown identifier; a one-character operator or bracket of the matching kind; an unknown character, as a `Bad` token with that character's error. No token contains white space |
| Lexer.LexFromLexed | calc.py:90-202 | each token of the rest of the input is well-formed for its position, and the tokens do not overlap and come in input order |
| Lexer.LexScan | calc.py:90-202 | the loop with its skip counter produces exactly the tokens of the recursive definition `Lex` |
| Lexer.NumberLoop | calc.py:106-122 | the inner number loop returns the lexeme and skip count of the number scan |
| Lexer.WordLoop | calc.py:129-136 | the inner identifier loop returns the lexeme and skip count of the word scan |
| Lexer.LexPartition | calc.py:93-98 | token offsets strictly increase; a character is covered by some token exactly when it is not white space; no character is covered twice |
| Lexer.LexNumberLiteral | calc.py:99-123 | a string of digits with at most one point lexes as a single number token holding the whole string |
| Lexer.LexSecondPoint | calc.py:108-115 | `1.2.3` lexes as a `Bad` token `1.2` with the decimal-point error, then a number `.3` at offset 3 |
| Lexer.LexErrorCount | calc.py:204-209 | the error count is zero exactly when no token is `Bad`, and never exceeds the number of tokens |
| Lexer.PrintLexErrors | calc.py:211-217 | one message line is produced per counted error |
| Lexer.PrintLexErrorsCount | calc.py:211-217 | the count returned by `print_lex_errors` equals the one from `get_lex_error_count` |
| Rewrite.Substitute | calc.py:272-276 | substitution succeeds exactly when every constant is in the table; on success it keeps the length, turns each constant into a number with the table's text, leaves every other token alone, and leaves no constant; on failure it names an unknown constant of the input |
| Rewrite.RewriteLoop | calc.py:277-307 | the index loop with its insertions computes the recursive rewrite `RewriteUnaryMinus` |
| Rewrite.EraseRewrite | calc.py:287-289 | deleting the synthetic tokens from the rewritten list gives back the input, so every input token survives, in order |
| Rewrite.RewriteInsertsOnly | calc.py:256-267 | on input from the source, every synthetic token in the rewritten list is the inserted `(`, `0` or `)` |
| Rewrite.RewriteIdempotent | calc.py:279-307 | rewriting a second time changes nothing |
| Rewrite.RewriteUnchangedIff | calc.py:281-294 | the rewrite leaves the tokens unchanged exactly when no minus is in unary position before an operand |
| Rewrite.RewriteGrows | calc.py:281-306 | one unary minus before an operand makes the output strictly longer than the input |
| Rewrite.RwGroup | calc.py:287-306 | an inserted group `( 0 - x )` is skipped as a whole, and the token after it sees a `)` before it |
| Rewrite.SubstituteThenRewrite | calc.py:272-307 | after both passes no constant is left, and deleting the synthetic tokens gives the substituted list |
| Rewrite.RewriteKeepsKinds | calc.py:287-305 | the rewrite introduces no constant token |
| Postfix.PopAtLeastSpec | calc.py:360-374 | a binary operator pops a top segment of the stack onto the output in stack order; every popped entry ranks at least as high as the incoming operator, and the entry left on top ranks lower |
| Postfix.PopForFunctionSpec | calc.py:345-353 | a function pops, in stack order, only non-function entries ranking at least 1, and stops at a function or at a lower rank |
| Postfix.PopToOpenSpec | calc.py:332-342 | `)` fails exactly when the stack holds no `(`; otherwise it moves the operators above the nearest `(` to the output and drops that `(` |
| Postfix.StepInv | calc.py:325-382 | one converter step crashes exactly on a `)` when no bracket is open. Otherwise it keeps the invariant: the stack holds only brackets and operators ranked upwards; the counter equals the open brackets; operands stay in input order; no operator is lost; each unrecognised token gets one error |
| Postfix.ScanInv | calc.py:318-382 | the scan over the whole list succeeds exactly when no prefix closes more brackets than it opens, and then the invariant holds |
| Postfix.StepCloseCrash | calc.py:332-340 | a `)` crashes, naming its own offset, exactly when the brackets seen so far are balanced |
| Postfix.ScanCrashAt | calc.py:332-340 | the conversion crashes at the first `)` that leaves more brackets closed than opened, and names that token's offset |
| Postfix.ScanCrashReason | calc.py:334-340 | any scan crash names the offset of a `)` of the input |
| Postfix.ConvertCrash | calc.py:317-401 | the conversion crashes exactly when some prefix closes more brackets than it opens |
| Postfix.ConvertFirstUnmatched | calc.py:332-340 | the conversion crashes exactly when the input has an unmatched `)`, reading from the left, and names the offset of the first one |
| Postfix.FirstUnmatchedAt | calc.py:332-340 | the first prefix that closes more brackets than it opens ends at the first unmatched `)` |
| Postfix.ConvertSpec | calc.py:317-401 | without a crash the converter returns the errors for unrecognised tokens and then the unclosed-bracket count, if there are any. Otherwise it returns a postfix list of operands and operators only, with the input's operands in the same order and the same operators |
| Postfix.FinalPop | calc.py:386-388 | emptying a balanced stack onto the output keeps the operands' order and the operators |
| Postfix.LeftFirst | calc.py:365-375 | for `a o1 b o2 c` with `o1` ranking at least as high as `o2`, `o1` is applied first (left grouping, including `^ ^`) |
| Postfix.RightFirst | calc.py:365-375 | for `a o1 b o2 c` with `o1` ranking lower than `o2`, `o2` is applied first |
| Postfix.FunctionPopsPending | calc.py:344-354 | in `a o f ( b )` the function pops the pending binary operator, giving postfix `a o b f` |
| Postfix.GroupPostfix | calc.py:329-342 | a bracketed `( z m a )` converts to `z a m` |
| Postfix.GroupThenBinary | calc.py:329-375 | a bracketed group followed by `o b` converts to the group's postfix, then `b o` |
| Evaluator.ParseNatToString | calc.py:406 | the decimal text of a natural number reads back as that number |
| Evaluator.ParseFraction | calc.py:406 | `a.b` with digit strings `a` and `b`, not both empty, reads as the integer part of `a` plus the fraction `b` |
| Evaluator.ParseFailsOnlyOnPoint | calc.py:99-123 | among the lexemes the lexer can make, `decimal.Decimal` fails only on a lone `.` |
| Evaluator.CallFunction | calc.py:412-425 | a name not in the table (after lower-casing) fails as an unknown function. Otherwise the call returns exactly when the library function does, with its value; a domain error (`ZeroDivisionError`, `ValueError`) becomes the domain fault and any other error the generic fault |
| Evaluator.Run | calc.py:404-447 | the evaluation loop crashes only on a number token whose lexeme does not parse, naming that lexeme |
| Evaluator.EvalPostfix | calc.py:403-455 | evaluation crashes only on an unparsable number lexeme or on an empty final stack |
| Evaluator.RunAppend | calc.py:404-447 | running two lists one after the other is the same as running them joined, unless the first stops or crashes |
| Evaluator.RunTree | calc.py:404-447 | the postfix form of an expression tree pushes exactly the tree's value on the stack, when that value is defined |
| Evaluator.RunNodeTop | calc.py:430-447 | a binary operator replaces its two operands by their combination. Division by zero records an error and stops. A failed power records an error and goes on without a value |
| Evaluator.RunCallTop | calc.py:411-425 | a function replaces its operand by the result, or records a function failure and stops |
| Evaluator.EvalTree | calc.py:403-455 | evaluating the postfix form of a tree whose value is defined returns that value |
| Evaluator.DivisionByZeroStops | calc.py:437-440 | dividing by a subexpression whose value is zero records a division-by-zero error at the `/` offset and stops |
| Evaluator.PowerFailureContinues | calc.py:442-447 | a failing power records its operands and carries on with both operands gone |
| Evaluator.FunctionFailureStops | calc.py:414-425 | a failing function records the fault at the function's offset and stops |
| Evaluator.TwoValuesLeft | calc.py:449-450 | two complete expressions with no operator between them report too few operators, 2 values |
| Evaluator.OneOperandShort | calc.py:427-429 | a binary operator after a single value reports too many operators, at the second pop |
| Evaluator.NoOperand | calc.py:408-410 | an operator at the start reports too many operators, at the first pop |
| Evaluator.EmptyRaises | calc.py:453-455 | an empty postfix list crashes on `numbers_stack[0]` |
| Evaluator.LonePointRaises | calc.py:406 | a number token `.` crashes the evaluation with a decimal-conversion failure |
| Evaluator.OthersIgnored | calc.py:404-407 | tokens that are neither numbers nor operators (identifiers) leave the machine unchanged |
| Calculator.EvalLexTokens | calc.py:219-455 | the run crashes on an unknown constant exactly when substitution fails. It crashes on `)` exactly when the rewritten list has a prefix closing more brackets than it opens |
| Calculator.Calculate | calc.py:486-499 | the input is rejected before evaluation exactly when `lex` makes a `Bad` token; the reported count equals the error count and the number of lines; otherwise the outcome is `eval_lex_tokens` of the tokens |
| Calculator.LexedConstantsKnown | calc.py:272-276 | on lexed input the constant lookup never fails, so the unknown-constant crash cannot happen through the driver |
| Calculator.PlainEval | calc.py:272-401 | tokens without constants or minus signs go straight to conversion and evaluation |
| Calculator.PrecedenceEval | calc.py:357-375 | `a o1 b o2 c` evaluates to the value of the tree that groups by rank and to the left |
| Calculator.NegationEval | calc.py:277-290 | `- x` evaluates to the negation of `x` |
| Calculator.NegationFirstEval | calc.py:282-290 | `- a o b` evaluates as `(0 - a) o b` for every binary `o` |
| Calculator.ConversionErrorsReported | calc.py:380-401 | when conversion records errors, the run returns exactly those errors and evaluates nothing |
| Calculator.UnmatchedCloseEval | calc.py:332-340 | with the constants known, the first `)` that closes an unopened bracket crashes the whole run with that token's offset, whatever constants and unary minus signs the tokens hold |
| Calculator.UnmatchedCloseExactly | calc.py:272-340 | with the constants known, the run crashes on a `)` exactly when the tokens hold an unmatched `)`, and the crash names the first one |
| Calculator.SubstituteKeepsUnmatched | calc.py:272-276 | substitution leaves the first unmatched `)` and its offset unchanged |
| Calculator.RewriteKeepsUnmatched | calc.py:277-307 | the unary-minus rewrite leaves the first unmatched `)` and its offset unchanged, because each inserted group is balanced |
| Calculator.DivisionByZeroEval | calc.py:437-440 | `a / b` with `b` reading as zero reports division by zero at the `/` |
| Calculator.TwoNumbersEval | calc.py:449-450 | two numbers side by side report too few operators, 2 values |
| Calculator.FunctionAfterOperatorEval | calc.py:344-354 | `a o f ( b )` reports too many operators, because the function pops `o` before its argument is output |
| Calculator.EmptyBracketsEval | calc.py:329-342 | `( )` crashes on the empty final stack |
| Calculator.NothingEval | calc.py:455 | no tokens at all crash on the empty final stack |
| Calculator.LonePointEval | calc.py:406 | a lone `.` crashes the evaluation |
| CalculatorCases.SumOfProduct | calc.py:90-499 | `2+3*4` gives 14 |
| CalculatorCases.PowerChain | calc.py:357-375 | `2^3^2` gives 64, that is `(2^3)^2` |
| CalculatorCases.NegativeFirst | calc.py:277-290 | `-5+2` gives -3 |
| CalculatorCases.DivideByZero | calc.py:437-440 | `1/0` reports division by zero at offset 1 |
| CalculatorCases.MissingOperator | calc.py:449-450 | `1 2` reports too few operators, 2 values |
| CalculatorCases.FunctionAfterOperator | calc.py:344-354 | `2+sqrt(4)` reports too many operators, whatever `sqrt` returns |
| CalculatorCases.EmptyInput | calc.py:453-455 | the empty line crashes on the empty final stack |
| CalculatorCases.EmptyBrackets | calc.py:329-342 | `()` crashes on the empty final stack |
| CalculatorCases.LoneClose | calc.py:332-334 | `)` crashes with offset 0 |
| CalculatorCases.LonePoint | calc.py:99-123 | `.` lexes as a number and then crashes the decimal conversion |
| CalculatorCases.TwoPoints | calc.py:486-493 | `1.2.3` is rejected with one lexical error and is not evaluated |

## Left out

- The command-line and interactive driver (calc.py:457-485, 500-508) is left
  out: argument handling, the help and version flags, the REPL prompt, the
  exit statuses and all printing. Only the lexical gate and the call at
  calc.py:486-499 are modelled, by `Calculator.Calculate`. As written, an
  expression given as an argument only reaches that code inside the
  `while is_interactive` loop, so it is never evaluated.
- Debug output (`console_output_debug_msg`, the partial-token print at
  calc.py:309-314) is left out, because it does not affect results.
- `Token.get_str_from_type_enum` and the `__str__` methods are left out,
  because they only render text for debug output.
- The floating-point library functions of `KNOWN_FUNCTIONS` and `math.pow`
  are parameters (`apply`, `power`). Their numeric behaviour and the
  conversion of their float results to `Decimal` are not modelled.
- Decimal arithmetic is exact real arithmetic. The 28-digit context rounding
  of Python's `decimal` module is not modelled.
- The constants are held as the text `str(float)` gives for them. The
  floating-point values themselves are not modelled.
- Character classes (`isspace`, `isdigit`, `isalpha`, `isalnum`,
  `isprintable`) cover ASCII only. Other Unicode digits and letters are not
  modelled.
- Evaluation errors are structured values (`Diagnostics.EvalError`), not
  the formatted strings of the source. Lexical errors keep their message
  lines.
- Evaluator.ParseDecimal: reads only lexemes of digits with at most one
  point. Other strings that `decimal.Decimal` accepts (signs, exponents,
  `NaN`) are mapped to failure. The lexer never produces them
  (`Evaluator.ParseFailsOnlyOnPoint`).
- Evaluator.CallFunction: every exception other than `ZeroDivisionError` and
  `ValueError` is one `OtherFault`. The exception's text is not kept.
- Calculator.UnmatchedCloseEval: requires every constant to be in the table.
  Otherwise the KeyError at calc.py:275 ends the run before conversion, as
  `Calculator.EvalLexTokens` states. Lexed input always meets the
  requirement (`Calculator.LexedConstantsKnown`).
