/** Whole expressions through the driver, from the text to the answer: the
    cases the calculator's behaviour is easiest to recognise by. Functions
    and powers stay parameters; where a case needs a power, the two it uses
    are given as requirements. */
module CalculatorCases {
  import opened Wrappers
  import opened Tokens
  import opened Diagnostics
  import opened Lexer
  import opened Postfix
  import opened Evaluator
  import opened Calculator

  // ---------------------------------------------------------------------------
  // Lexing one token at a time
  // ---------------------------------------------------------------------------

  lemma LexSymbolAt(s: string, i: nat)
    requires i < |s| && SymbolKind(s[i]).Some?
    ensures LexFrom(s, i) == [Token(SymbolKind(s[i]).value, [s[i]], i, None)] + LexFrom(s, i + 1)
  {
    LexFromStep(s, i);
    assert !IsSpace(s[i]) && !IsNumberChar(s[i]) && !IsWordStart(s[i]);
  }

  lemma LexDigitAt(s: string, i: nat)
    requires i < |s| && IsDigit(s[i]) && (i + 1 == |s| || !IsNumberChar(s[i + 1]))
    ensures LexFrom(s, i) == [Token(Number, [s[i]], i, None)] + LexFrom(s, i + 1)
  {
    LexFromStep(s, i);
    assert ScanNumber(s, i + 1, 0) == NumberRun(i + 1, false);
    assert s[i..i + 1] == [s[i]];
  }

  lemma LexSpaceAt(s: string, i: nat)
    requires i < |s| && IsSpace(s[i])
    ensures LexFrom(s, i) == LexFrom(s, i + 1)
  {
    LexFromStep(s, i);
  }

  lemma {:induction false} ScanWordTo(s: string, j: nat, e: nat)
    requires j <= e <= |s| && (forall p :: j <= p < e ==> IsWordChar(s[p]))
    requires e == |s| || !IsWordChar(s[e])
    ensures ScanWord(s, j) == e
    decreases e - j
  {
    if j < e {
      ScanWordTo(s, j + 1, e);
    }
  }

  lemma LexWordAt(s: string, i: nat, e: nat)
    requires i < e <= |s| && IsWordStart(s[i]) && (forall p :: i < p < e ==> IsWordChar(s[p]))
    requires e == |s| || !IsWordChar(s[e])
    ensures LexFrom(s, i) == [ClassifyWord(s[i..e], i)] + LexFrom(s, e)
  {
    LexFromStep(s, i);
    ScanWordTo(s, i, e);
  }

  lemma LexEnd(s: string)
    ensures LexFrom(s, |s|) == []
  {
  }

  /** A one-digit lexeme reads as its digit. */
  lemma DigitParses(c: char)
    requires IsDigit(c)
    ensures ParseDecimal([c]) == Some((c as int - '0' as int) as real)
  {
    var x := [c];
    assert x[0] == c && IsDigit(x[0]);
    assert AllNumberChars(x) && HasDigit(x);
    NoPointCount(x);
    assert DropLast(x) == [] && Last(x) == c;
    assert AllDigits(x);
    assert DigitsValue(x) == c as int - '0' as int;
  }

  /** Input without a lexical error goes straight to evaluation. */
  lemma CalculateClean(s: string, ts: seq<Token>, apply: (string, real) -> MathResult, power: (real, real) -> Option<real>)
    requires Lex(s) == ts && forall k :: 0 <= k < |ts| ==> ts[k].kind != Bad
    ensures Calculate(s, apply, power) == Evaluated(EvalLexTokens(ts, apply, power))
  {
  }

  // ---------------------------------------------------------------------------
  // Values
  // ---------------------------------------------------------------------------

  /** `*` binds more tightly than `+`. */
  lemma SumOfProduct(apply: (string, real) -> MathResult, power: (real, real) -> Option<real>)
    ensures Calculate("2+3*4", apply, power) == Evaluated(Value(14.0))
  {
    LexSumOfProduct();
    SumOfProductTokens(apply, power);
    SumOfProductClean();
    CalculateClean("2+3*4", SumOfProductLexed, apply, power);
  }

  const SumOfProductLexed: seq<Token> :=
    [Token(Number, "2", 0, None), Token(Add, "+", 1, None), Token(Number, "3", 2, None),
     Token(Mul, "*", 3, None), Token(Number, "4", 4, None)]

  lemma SumOfProductClean()
    ensures forall k :: 0 <= k < |SumOfProductLexed| ==> SumOfProductLexed[k].kind != Bad
  {
  }

  lemma LexSumOfProduct()
    ensures Lex("2+3*4") == SumOfProductLexed
  {
    LexSumOfProductText("2+3*4");
  }

  lemma LexSumOfProductText(s: string)
    requires |s| == 5 && s[0] == '2' && s[1] == '+' && s[2] == '3' && s[3] == '*' && s[4] == '4'
    ensures Lex(s) == SumOfProductLexed
  {
    LexDigitAt(s, 4);
    LexSymbolAt(s, 3);
    LexDigitAt(s, 2);
    LexSymbolAt(s, 1);
    LexDigitAt(s, 0);
  }

  lemma SumOfProductTokens(apply: (string, real) -> MathResult, power: (real, real) -> Option<real>)
    ensures EvalLexTokens(SumOfProductLexed, apply, power) == Value(14.0)
  {
    var ts := SumOfProductLexed;
    var a, o1, b, o2, c := ts[0], ts[1], ts[2], ts[3], ts[4];
    assert ts == [a, o1, b, o2, c];
    DigitParses('2');
    DigitParses('3');
    DigitParses('4');
    assert Denote(Leaf(a), apply, power) == Some(2.0);
    assert Denote(Leaf(b), apply, power) == Some(3.0);
    assert Denote(Leaf(c), apply, power) == Some(4.0);
    var e := Grouped(a, o1, b, o2, c);
    assert e == Node(o1, Leaf(a), Node(o2, Leaf(b), Leaf(c)));
    assert Denote(Node(o2, Leaf(b), Leaf(c)), apply, power) == Some(12.0);
    assert Denote(e, apply, power) == Some(14.0);
    PrecedenceEval(a, o1, b, o2, c, apply, power);
  }

  /** `^` groups to the left like the other operators: `2^3^2` is `(2^3)^2`. */
  lemma PowerChain(apply: (string, real) -> MathResult, power: (real, real) -> Option<real>)
    requires power(2.0, 3.0) == Some(8.0) && power(8.0, 2.0) == Some(64.0)
    ensures Calculate("2^3^2", apply, power) == Evaluated(Value(64.0))
  {
    LexPowerChain();
    PowerChainTokens(apply, power);
    PowerChainClean();
    CalculateClean("2^3^2", PowerChainLexed, apply, power);
  }

  const PowerChainLexed: seq<Token> :=
    [Token(Number, "2", 0, None), Token(Exp, "^", 1, None), Token(Number, "3", 2, None),
     Token(Exp, "^", 3, None), Token(Number, "2", 4, None)]

  lemma PowerChainClean()
    ensures forall k :: 0 <= k < |PowerChainLexed| ==> PowerChainLexed[k].kind != Bad
  {
  }

  lemma LexPowerChain()
    ensures Lex("2^3^2") == PowerChainLexed
  {
    LexPowerChainText("2^3^2");
  }

  lemma LexPowerChainText(s: string)
    requires |s| == 5 && s[0] == '2' && s[1] == '^' && s[2] == '3' && s[3] == '^' && s[4] == '2'
    ensures Lex(s) == PowerChainLexed
  {
    LexDigitAt(s, 4);
    LexSymbolAt(s, 3);
    LexDigitAt(s, 2);
    LexSymbolAt(s, 1);
    LexDigitAt(s, 0);
  }

  lemma PowerChainTokens(apply: (string, real) -> MathResult, power: (real, real) -> Option<real>)
    requires power(2.0, 3.0) == Some(8.0) && power(8.0, 2.0) == Some(64.0)
    ensures EvalLexTokens(PowerChainLexed, apply, power) == Value(64.0)
  {
    var ts := PowerChainLexed;
    var a, o1, b, o2, c := ts[0], ts[1], ts[2], ts[3], ts[4];
    assert ts == [a, o1, b, o2, c];
    DigitParses('2');
    DigitParses('3');
    assert Denote(Leaf(a), apply, power) == Some(2.0);
    assert Denote(Leaf(b), apply, power) == Some(3.0);
    assert Denote(Leaf(c), apply, power) == Some(2.0);
    var e := Grouped(a, o1, b, o2, c);
    assert e == Node(o2, Node(o1, Leaf(a), Leaf(b)), Leaf(c));
    assert Denote(Node(o1, Leaf(a), Leaf(b)), apply, power) == Some(8.0);
    assert Denote(e, apply, power) == Some(64.0);
    PrecedenceEval(a, o1, b, o2, c, apply, power);
  }

  /** A leading minus is applied before the operator that follows. */
  lemma NegativeFirst(apply: (string, real) -> MathResult, power: (real, real) -> Option<real>)
    ensures Calculate("-5+2", apply, power) == Evaluated(Value(-3.0))
  {
    LexNegativeFirst();
    NegativeFirstTokens(apply, power);
    NegativeFirstClean();
    CalculateClean("-5+2", NegativeFirstLexed, apply, power);
  }

  const NegativeFirstLexed: seq<Token> :=
    [Token(Sub, "-", 0, None), Token(Number, "5", 1, None), Token(Add, "+", 2, None), Token(Number, "2", 3, None)]

  lemma NegativeFirstClean()
    ensures forall k :: 0 <= k < |NegativeFirstLexed| ==> NegativeFirstLexed[k].kind != Bad
  {
  }

  lemma LexNegativeFirst()
    ensures Lex("-5+2") == NegativeFirstLexed
  {
    LexNegativeFirstText("-5+2");
  }

  lemma LexNegativeFirstText(s: string)
    requires |s| == 4 && s[0] == '-' && s[1] == '5' && s[2] == '+' && s[3] == '2'
    ensures Lex(s) == NegativeFirstLexed
  {
    LexDigitAt(s, 3);
    LexSymbolAt(s, 2);
    LexDigitAt(s, 1);
    LexSymbolAt(s, 0);
  }

  lemma NegativeFirstTokens(apply: (string, real) -> MathResult, power: (real, real) -> Option<real>)
    ensures EvalLexTokens(NegativeFirstLexed, apply, power) == Value(-3.0)
  {
    var ts := NegativeFirstLexed;
    var m, a, o, b := ts[0], ts[1], ts[2], ts[3];
    assert ts == [m, a, o, b];
    DigitParses('5');
    DigitParses('2');
    ZeroParses();
    var neg := Node(m, Leaf(ZeroTok), Leaf(a));
    assert Denote(neg, apply, power) == Some(-5.0);
    assert Denote(Node(o, neg, Leaf(b)), apply, power) == Some(-3.0);
    NegationFirstEval(m, a, o, b, apply, power);
  }

  // ---------------------------------------------------------------------------
  // Errors the evaluator reports
  // ---------------------------------------------------------------------------

  /** Division by zero names the offset of the `/`. */
  lemma DivideByZero(apply: (string, real) -> MathResult, power: (real, real) -> Option<real>)
    ensures Calculate("1/0", apply, power) == Evaluated(Errors([DivisionByZero(1)]))
  {
    LexDivideByZero();
    DivideByZeroTokens(apply, power);
    DivideByZeroClean();
    CalculateClean("1/0", DivideByZeroLexed, apply, power);
  }

  const DivideByZeroLexed: seq<Token> :=
    [Token(Number, "1", 0, None), Token(Div, "/", 1, None), Token(Number, "0", 2, None)]

  lemma DivideByZeroClean()
    ensures forall k :: 0 <= k < |DivideByZeroLexed| ==> DivideByZeroLexed[k].kind != Bad
  {
  }

  lemma LexDivideByZero()
    ensures Lex("1/0") == DivideByZeroLexed
  {
    var s := "1/0";
    LexDigitAt(s, 2);
    LexSymbolAt(s, 1);
    LexDigitAt(s, 0);
  }

  lemma DivideByZeroTokens(apply: (string, real) -> MathResult, power: (real, real) -> Option<real>)
    ensures EvalLexTokens(DivideByZeroLexed, apply, power) == Errors([DivisionByZero(1)])
  {
    var ts := DivideByZeroLexed;
    assert ts == [ts[0], ts[1], ts[2]];
    DigitParses('1');
    DigitParses('0');
    DivisionByZeroEval(ts[0], ts[1], ts[2], apply, power);
  }

  /** Two numbers and no operator: two values are left on the stack. */
  lemma MissingOperator(apply: (string, real) -> MathResult, power: (real, real) -> Option<real>)
    ensures Calculate("1 2", apply, power) == Evaluated(Errors([TooFewOperators(2)]))
  {
    LexMissingOperator();
    MissingOperatorTokens(apply, power);
    MissingOperatorClean();
    CalculateClean("1 2", MissingOperatorLexed, apply, power);
  }

  const MissingOperatorLexed: seq<Token> := [Token(Number, "1", 0, None), Token(Number, "2", 2, None)]

  lemma MissingOperatorClean()
    ensures forall k :: 0 <= k < |MissingOperatorLexed| ==> MissingOperatorLexed[k].kind != Bad
  {
  }

  lemma LexMissingOperator()
    ensures Lex("1 2") == MissingOperatorLexed
  {
    var s := "1 2";
    LexDigitAt(s, 2);
    LexSpaceAt(s, 1);
    LexDigitAt(s, 0);
  }

  lemma MissingOperatorTokens(apply: (string, real) -> MathResult, power: (real, real) -> Option<real>)
    ensures EvalLexTokens(MissingOperatorLexed, apply, power) == Errors([TooFewOperators(2)])
  {
    var ts := MissingOperatorLexed;
    assert ts == [ts[0], ts[1]];
    DigitParses('1');
    DigitParses('2');
    TwoNumbersEval(ts[0], ts[1], apply, power);
  }

  /** A function right after a binary operator takes that operator's place on
      the output, so the operator finds only one operand. */
  lemma FunctionAfterOperator(apply: (string, real) -> MathResult, power: (real, real) -> Option<real>)
    ensures Calculate("2+sqrt(4)", apply, power) == Evaluated(Errors([TooManyOperators(1)]))
  {
    LexFunctionAfterOperator();
    FunctionAfterOperatorTokens(apply, power);
    FunctionAfterOperatorClean();
    CalculateClean("2+sqrt(4)", FunctionAfterOperatorLexed, apply, power);
  }

  const FunctionAfterOperatorLexed: seq<Token> :=
    [Token(Number, "2", 0, None), Token(Add, "+", 1, None), Token(Function, "sqrt", 2, None),
     Token(Open, "(", 6, None), Token(Number, "4", 7, None), Token(Close, ")", 8, None)]

  lemma FunctionAfterOperatorClean()
    ensures forall k :: 0 <= k < |FunctionAfterOperatorLexed| ==> FunctionAfterOperatorLexed[k].kind != Bad
  {
  }

  lemma LexFunctionAfterOperator()
    ensures Lex("2+sqrt(4)") == FunctionAfterOperatorLexed
  {
    LexFunctionAfterOperatorText("2+sqrt(4)");
  }

  /** The same, for any text with those characters; kept apart so that the
      lexer is not unfolded on a literal. */
  lemma LexFunctionAfterOperatorText(s: string)
    requires |s| == 9 && s[0] == '2' && s[1] == '+' && s[2] == 's' && s[3] == 'q' && s[4] == 'r'
    requires s[5] == 't' && s[6] == '(' && s[7] == '4' && s[8] == ')'
    ensures Lex(s) == FunctionAfterOperatorLexed
  {
    var ts := FunctionAfterOperatorLexed;
    LexSqrtCall(s);
    LexSymbolAt(s, 1);
    LexDigitAt(s, 0);
    assert LexFrom(s, 0) == [ts[0], ts[1]] + ts[2..];
  }

  lemma LexSqrtCall(s: string)
    requires |s| == 9 && s[2] == 's' && s[3] == 'q' && s[4] == 'r' && s[5] == 't' && s[6] == '(' && s[7] == '4' && s[8] == ')'
    ensures LexFrom(s, 2) == FunctionAfterOperatorLexed[2..]
  {
    LexBracketedDigit(s, 6);
    LexSqrtAt(s, 2);
  }

  /** `(d)` with a single digit, closing the text. */
  lemma LexBracketedDigit(s: string, i: nat)
    requires i + 3 == |s| && s[i] == '(' && IsDigit(s[i + 1]) && s[i + 2] == ')'
    ensures LexFrom(s, i) == [Token(Open, "(", i, None), Token(Number, [s[i + 1]], i + 1, None), Token(Close, ")", i + 2, None)]
  {
    LexSymbolAt(s, i + 2);
    LexDigitAt(s, i + 1);
    LexSymbolAt(s, i);
  }

  lemma LexSqrtAt(s: string, i: nat)
    requires i + 4 < |s| && s[i] == 's' && s[i + 1] == 'q' && s[i + 2] == 'r' && s[i + 3] == 't' && s[i + 4] == '('
    ensures LexFrom(s, i) == [Token(Function, "sqrt", i, None)] + LexFrom(s, i + 4)
  {
    assert s[i..i + 4] == "sqrt";
    SqrtIsFunction(i);
    LexWordAt(s, i, i + 4);
  }

  lemma SqrtIsFunction(i: nat)
    ensures ClassifyWord("sqrt", i) == Token(Function, "sqrt", i, None)
  {
    assert "sqrt" in KnownFunctions;
    assert "sqrt" !in KnownConsts by {
      assert KnownConsts.Keys == {"pi", "e", "deg2rad", "rad2deg"};
    }
  }

  lemma FunctionAfterOperatorTokens(apply: (string, real) -> MathResult, power: (real, real) -> Option<real>)
    ensures EvalLexTokens(FunctionAfterOperatorLexed, apply, power) == Errors([TooManyOperators(1)])
  {
    var ts := FunctionAfterOperatorLexed;
    assert ts == [ts[0], ts[1], ts[2], ts[3], ts[4], ts[5]];
    DigitParses('2');
    FunctionAfterOperatorEval(ts[0], ts[1], ts[2], ts[3], ts[4], ts[5], apply, power);
  }

  // ---------------------------------------------------------------------------
  // Crashes
  // ---------------------------------------------------------------------------

  /** Empty input leaves the evaluator with nothing to return. */
  lemma EmptyInput(apply: (string, real) -> MathResult, power: (real, real) -> Option<real>)
    ensures Calculate("", apply, power) == Evaluated(Crash(EmptyResult))
  {
    LexEnd("");
    NothingEval(apply, power);
    CalculateClean("", [], apply, power);
  }

  /** Brackets around nothing: the same. */
  lemma EmptyBrackets(apply: (string, real) -> MathResult, power: (real, real) -> Option<real>)
    ensures Calculate("()", apply, power) == Evaluated(Crash(EmptyResult))
  {
    LexEmptyBrackets();
    EmptyBracketsEval(EmptyBracketsLexed[0], EmptyBracketsLexed[1], apply, power);
    assert EmptyBracketsLexed == [EmptyBracketsLexed[0], EmptyBracketsLexed[1]];
    CalculateClean("()", EmptyBracketsLexed, apply, power);
  }

  const EmptyBracketsLexed: seq<Token> := [Token(Open, "(", 0, None), Token(Close, ")", 1, None)]

  lemma LexEmptyBrackets()
    ensures Lex("()") == EmptyBracketsLexed
  {
    var s := "()";
    LexSymbolAt(s, 1);
    LexSymbolAt(s, 0);
  }

  /** A closing bracket with nothing open crashes with its offset. */
  lemma LoneClose(apply: (string, real) -> MathResult, power: (real, real) -> Option<real>)
    ensures Calculate(")", apply, power) == Evaluated(Crash(UnmatchedClose(0)))
  {
    var ts := [Token(Close, ")", 0, None)];
    LexSymbolAt(")", 0);
    assert ts[..0] == [] && ts[..1] == ts;
    assert Balance(ts) == -1;
    UnmatchedCloseEval(ts, 1, apply, power);
    CalculateClean(")", ts, apply, power);
  }

  /** A point on its own lexes as a number that does not parse. */
  lemma LonePoint(apply: (string, real) -> MathResult, power: (real, real) -> Option<real>)
    ensures Calculate(".", apply, power) == Evaluated(Crash(BadDecimal(".")))
  {
    var ts := [Token(Number, ".", 0, None)];
    assert NumberShape(".");
    LexNumberLiteral(".");
    LonePointEval(ts[0], apply, power);
    CalculateClean(".", ts, apply, power);
  }

  // ---------------------------------------------------------------------------
  // Lexical rejection
  // ---------------------------------------------------------------------------

  /** A second decimal point ends a bad number; the driver reports one error
      and evaluates nothing. */
  lemma TwoPoints(apply: (string, real) -> MathResult, power: (real, real) -> Option<real>)
    ensures Calculate("1.2.3", apply, power).LexRejected?
    ensures Calculate("1.2.3", apply, power).count == 1
  {
    var ts := [Token(Bad, "1.2", 0, Some(DecimalPointCount)), Token(Number, ".3", 3, None)];
    LexSecondPoint();
    assert ts[0].kind == Bad;
    assert DropLast(ts) == [ts[0]] && DropLast([ts[0]]) == [];
    assert LexErrorCount(ts) == 1;
  }
}
