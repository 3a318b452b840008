/** The whole calculator: `lex`, the lexical-error gate of the command-line
    driver, and `eval_lex_tokens` (constant substitution, unary-minus rewrite,
    shunting-yard conversion, postfix evaluation). */
module Calculator {
  import opened Wrappers
  import opened Tokens
  import opened Diagnostics
  import opened Lexer
  import opened Rewrite
  import opened Postfix
  import opened Evaluator

  /** `eval_lex_tokens`: the stages in order, the first crash ending the run,
      conversion errors returned without evaluating anything. */
  function EvalLexTokens(ts: seq<Token>, apply: (string, real) -> MathResult,
                         power: (real, real) -> Option<real>): (r: Outcome)
    ensures (r.Crash? && r.reason.UnknownConstant?) <==> Substitute(ts).Crashed?
    ensures (r.Crash? && r.reason.UnmatchedClose?) <==>
              Substitute(ts).Done? && !NeverNegative(RewriteUnaryMinus(Substitute(ts).value))
  {
    match Substitute(ts)
    case Crashed(why) => Crash(why)
    case Done(subst) =>
      var rewritten := RewriteUnaryMinus(subst);
      ConvertCrash(rewritten);
      ConvertCrashReason(rewritten);
      match Convert(rewritten)
      case Crashed(why) => Crash(why)
      case Done(Rejected(errs)) => Errors(errs)
      case Done(Postfix(p)) => EvalPostfix(p, apply, power)
  }

  /** What the driver does with one expression: report the lexical errors and
      stop, or evaluate. */
  datatype Answer = LexRejected(lines: seq<string>, count: nat) | Evaluated(outcome: Outcome)

  /** One expression through the driver: `print_lex_errors` decides whether
      `eval_lex_tokens` runs at all. */
  function Calculate(s: string, apply: (string, real) -> MathResult,
                     power: (real, real) -> Option<real>): (r: Answer)
    ensures r.LexRejected? <==> exists k :: 0 <= k < |Lex(s)| && Lex(s)[k].kind == Bad
    ensures r.LexRejected? ==> r.count == LexErrorCount(Lex(s)) == |r.lines|
    ensures r.Evaluated? ==> r.outcome == EvalLexTokens(Lex(s), apply, power)
  {
    var ts := Lex(s);
    LexFromLexed(s, 0);
    assert ts == LexFrom(s, 0);
    PrintLexErrorsCount(ts);
    var report := PrintLexErrors(ts);
    if report.count > 0 then LexRejected(report.lines, report.count)
    else Evaluated(EvalLexTokens(ts, apply, power))
  }

  // ---------------------------------------------------------------------------
  // The driver's inputs
  // ---------------------------------------------------------------------------

  /** The lexer only makes a `Const` token of a name in the constant table, so
      the substitution's KeyError cannot happen on lexed input. */
  lemma LexedConstantsKnown(s: string, apply: (string, real) -> MathResult, power: (real, real) -> Option<real>)
    ensures Substitute(Lex(s)).Done?
    ensures Calculate(s, apply, power).Evaluated? ==>
              !(Calculate(s, apply, power).outcome.Crash? && Calculate(s, apply, power).outcome.reason.UnknownConstant?)
  {
    var ts := Lex(s);
    assert ts == LexFrom(s, 0);
    LexFromLexed(s, 0);
    forall k | 0 <= k < |ts| && ts[k].kind == Const
      ensures ts[k].lexeme in KnownConsts
    {
      assert LexedAt(s, ts[k]);
    }
  }

  /** Tokens the first two stages leave alone: no constant and no unary minus. */
  predicate Plain(ts: seq<Token>) {
    && (forall k :: 0 <= k < |ts| ==> ts[k].kind != Const)
    && (forall i :: 0 <= i < |ts| ==> !UnaryAt(ts, i))
  }

  /** Without constants, substitution hands back its input. */
  lemma {:induction false} SubstituteNoConst(ts: seq<Token>)
    requires forall k :: 0 <= k < |ts| ==> ts[k].kind != Const
    ensures Substitute(ts) == Done(ts)
  {
    if |ts| > 0 {
      assert forall k :: 0 <= k < |ts[1..]| ==> ts[1..][k] == ts[k + 1];
      SubstituteNoConst(ts[1..]);
      assert [ts[0]] + ts[1..] == ts;
    }
  }

  lemma PlainUnchanged(ts: seq<Token>)
    requires Plain(ts)
    ensures Substitute(ts) == Done(ts)
    ensures RewriteUnaryMinus(ts) == ts
  {
    SubstituteNoConst(ts);
    RewriteUnchangedIff(ts);
  }

  /** On plain tokens, `eval_lex_tokens` is conversion then evaluation. */
  lemma PlainEval(ts: seq<Token>, apply: (string, real) -> MathResult, power: (real, real) -> Option<real>)
    requires Plain(ts)
    ensures EvalLexTokens(ts, apply, power) ==
              match Convert(ts)
              case Crashed(why) => Crash(why)
              case Done(Rejected(errs)) => Errors(errs)
              case Done(Postfix(p)) => EvalPostfix(p, apply, power)
  {
    PlainUnchanged(ts);
  }

  /** A plain input converted to a postfix list evaluates as that list. */
  lemma PlainConverts(ts: seq<Token>, p: seq<Token>, apply: (string, real) -> MathResult, power: (real, real) -> Option<real>)
    requires Plain(ts) && Convert(ts) == Done(Postfix(p))
    ensures EvalLexTokens(ts, apply, power) == EvalPostfix(p, apply, power)
  {
    PlainEval(ts, apply, power);
  }

  // ---------------------------------------------------------------------------
  // End to end
  // ---------------------------------------------------------------------------

  /** How `a o1 b o2 c` groups: the first operator first when it binds at least
      as tightly as the second, else the second first. */
  function Grouped(a: Token, o1: Token, b: Token, o2: Token, c: Token): Expr {
    if Prec(o1.kind) >= Prec(o2.kind) then Node(o2, Node(o1, Leaf(a), Leaf(b)), Leaf(c))
    else Node(o1, Leaf(a), Node(o2, Leaf(b), Leaf(c)))
  }

  /** A plain input whose conversion is the postfix list of a tree evaluates
      to the tree's value. */
  lemma EvalConverted(ts: seq<Token>, e: Expr, apply: (string, real) -> MathResult, power: (real, real) -> Option<real>)
    requires Plain(ts) && Convert(ts) == Done(Postfix(Flatten(e)))
    requires Built(e) && Denote(e, apply, power).Some?
    ensures EvalLexTokens(ts, apply, power) == Value(Denote(e, apply, power).value)
  {
    PlainEval(ts, apply, power);
    EvalTree(e, apply, power);
  }

  lemma PlainFive(a: Token, o1: Token, b: Token, o2: Token, c: Token)
    requires a.kind == Number && b.kind == Number && c.kind == Number
    requires Binary(o1.kind) && Binary(o2.kind)
    ensures Plain([a, o1, b, o2, c])
  {
    var ts := [a, o1, b, o2, c];
    assert !UnaryAt(ts, 1) && !UnaryAt(ts, 3);
  }

  /** Two binary operators between three numbers evaluate with the usual
      precedences, equal precedences (`^` included) grouping to the left. */
  lemma PrecedenceEval(a: Token, o1: Token, b: Token, o2: Token, c: Token,
                       apply: (string, real) -> MathResult, power: (real, real) -> Option<real>)
    requires a.kind == Number && b.kind == Number && c.kind == Number
    requires Binary(o1.kind) && Binary(o2.kind)
    requires Denote(Grouped(a, o1, b, o2, c), apply, power).Some?
    ensures EvalLexTokens([a, o1, b, o2, c], apply, power) == Value(Denote(Grouped(a, o1, b, o2, c), apply, power).value)
  {
    PlainFive(a, o1, b, o2, c);
    var e := Grouped(a, o1, b, o2, c);
    if Prec(o1.kind) >= Prec(o2.kind) {
      LeftFirst(a, o1, b, o2, c);
      var l := Node(o1, Leaf(a), Leaf(b));
      assert e == Node(o2, l, Leaf(c));
      assert Flatten(l) == [a] + [b] + [o1] == [a, b, o1];
      assert Flatten(e) == [a, b, o1] + [c] + [o2] == [a, b, o1, c, o2];
    } else {
      RightFirst(a, o1, b, o2, c);
      var r := Node(o2, Leaf(b), Leaf(c));
      assert e == Node(o1, Leaf(a), r);
      assert Flatten(r) == [b] + [c] + [o2] == [b, c, o2];
      assert Flatten(e) == [a] + [b, c, o2] + [o1] == [a, b, c, o2, o1];
    }
    EvalConverted([a, o1, b, o2, c], e, apply, power);
  }

  /** A leading `- X` is the first thing rewritten. */
  lemma RewriteLeadingMinus(m: Token, a: Token, rest: seq<Token>)
    requires m.kind == Sub && IsOperandKind(a.kind)
    ensures RewriteUnaryMinus([m, a] + rest) == [OpenTok, ZeroTok, m, a, CloseTok] + Rw(rest, Some(Close))
  {
    var ts := [m, a] + rest;
    assert ts[0] == m && ts[1] == a && ts[2..] == rest;
  }

  /** After a rewritten group, `o b` is left alone: `o` follows a `)`. */
  lemma RewriteAfterGroup(o: Token, b: Token)
    requires Binary(o.kind) && IsOperandKind(b.kind)
    ensures Rw([o, b], Some(Close)) == [o, b]
  {
    assert [o, b][1..] == [b] && [b][1..] == [];
    assert !UnaryHead([o, b], Some(Close));
    assert Rw([b], Some(o.kind)) == [b] + Rw([], Some(b.kind)) == [b];
  }

  lemma ZeroParses()
    ensures ParseDecimal(ZeroTok.lexeme) == Some(0.0)
  {
    var z := ZeroTok.lexeme;
    assert z == "0" && IsDigit(z[0]);
    assert AllNumberChars(z);
    NoPointCount(z);
    assert DropLast(z) == [];
  }

  /** `- X` at the start is read as `( 0 - X )`: the negation of `X`. */
  lemma NegationEval(m: Token, a: Token, apply: (string, real) -> MathResult, power: (real, real) -> Option<real>)
    requires m.kind == Sub && a.kind == Number && ParseDecimal(a.lexeme).Some?
    ensures EvalLexTokens([m, a], apply, power) == Value(-ParseDecimal(a.lexeme).value)
  {
    NegationPostfix(m, a, apply, power);
    var e := Node(m, Leaf(ZeroTok), Leaf(a));
    assert Flatten(e) == [ZeroTok] + [a] + [m] == [ZeroTok, a, m];
    ZeroParses();
    EvalTree(e, apply, power);
  }

  lemma NegationPostfix(m: Token, a: Token, apply: (string, real) -> MathResult, power: (real, real) -> Option<real>)
    requires m.kind == Sub && a.kind == Number
    ensures EvalLexTokens([m, a], apply, power) == EvalPostfix([ZeroTok, a, m], apply, power)
  {
    SubstituteNoConst([m, a]);
    RewriteNegation(m, a);
    GroupPostfix(OpenTok, ZeroTok, m, a, CloseTok);
  }

  lemma RewriteNegation(m: Token, a: Token)
    requires m.kind == Sub && IsOperandKind(a.kind)
    ensures RewriteUnaryMinus([m, a]) == [OpenTok, ZeroTok, m, a, CloseTok]
  {
    assert [m, a][2..] == [];
    assert UnaryHead([m, a], None);
    assert Rw([m, a], None) == [OpenTok, ZeroTok, m, a, CloseTok] + Rw([], Some(Close));
    assert [OpenTok, ZeroTok, m, a, CloseTok] + [] == [OpenTok, ZeroTok, m, a, CloseTok];
  }

  /** `- X o Y` at the start: the negation is complete before `o` applies, so
      the minus binds more tightly than any binary operator. */
  lemma NegationFirstEval(m: Token, a: Token, o: Token, b: Token,
                          apply: (string, real) -> MathResult, power: (real, real) -> Option<real>)
    requires m.kind == Sub && a.kind == Number && Binary(o.kind) && b.kind == Number
    requires Denote(Node(o, Node(m, Leaf(ZeroTok), Leaf(a)), Leaf(b)), apply, power).Some?
    ensures EvalLexTokens([m, a, o, b], apply, power) ==
              Value(Denote(Node(o, Node(m, Leaf(ZeroTok), Leaf(a)), Leaf(b)), apply, power).value)
  {
    NegationFirstPostfix(m, a, o, b, apply, power);
    NegationFirstTree(m, a, o, b, apply, power);
  }

  lemma NegationFirstTree(m: Token, a: Token, o: Token, b: Token,
                          apply: (string, real) -> MathResult, power: (real, real) -> Option<real>)
    requires m.kind == Sub && a.kind == Number && Binary(o.kind) && b.kind == Number
    requires Denote(Node(o, Node(m, Leaf(ZeroTok), Leaf(a)), Leaf(b)), apply, power).Some?
    ensures EvalPostfix([ZeroTok, a, m, b, o], apply, power) ==
              Value(Denote(Node(o, Node(m, Leaf(ZeroTok), Leaf(a)), Leaf(b)), apply, power).value)
  {
    FlattenNegationFirst(m, a, o, b);
    EvalTree(Node(o, Node(m, Leaf(ZeroTok), Leaf(a)), Leaf(b)), apply, power);
  }

  lemma FlattenNegationFirst(m: Token, a: Token, o: Token, b: Token)
    ensures Flatten(Node(o, Node(m, Leaf(ZeroTok), Leaf(a)), Leaf(b))) == [ZeroTok, a, m, b, o]
  {
    var g := Node(m, Leaf(ZeroTok), Leaf(a));
    assert Flatten(g) == [ZeroTok] + [a] + [m] == [ZeroTok, a, m];
    assert Flatten(Node(o, g, Leaf(b))) == [ZeroTok, a, m] + [b] + [o] == [ZeroTok, a, m, b, o];
  }

  lemma NegationFirstPostfix(m: Token, a: Token, o: Token, b: Token,
                             apply: (string, real) -> MathResult, power: (real, real) -> Option<real>)
    requires m.kind == Sub && a.kind == Number && Binary(o.kind) && b.kind == Number
    ensures EvalLexTokens([m, a, o, b], apply, power) == EvalPostfix([ZeroTok, a, m, b, o], apply, power)
  {
    SubstituteNoConst([m, a, o, b]);
    RewriteLeadingMinus(m, a, [o, b]);
    assert [m, a] + [o, b] == [m, a, o, b];
    RewriteAfterGroup(o, b);
    assert [OpenTok, ZeroTok, m, a, CloseTok] + [o, b] == [OpenTok, ZeroTok, m, a, CloseTok, o, b];
    GroupThenBinary(OpenTok, ZeroTok, m, a, CloseTok, o, b);
  }

  // ---------------------------------------------------------------------------
  // Errors and crashes, end to end
  // ---------------------------------------------------------------------------

  /** Conversion errors (unrecognised tokens, unclosed brackets) are returned
      as they are, nothing being evaluated. */
  lemma ConversionErrorsReported(ts: seq<Token>, apply: (string, real) -> MathResult, power: (real, real) -> Option<real>)
    requires Substitute(ts).Done?
    requires NeverNegative(RewriteUnaryMinus(Substitute(ts).value))
    requires |ExpectedErrors(RewriteUnaryMinus(Substitute(ts).value))| > 0
    ensures EvalLexTokens(ts, apply, power) == Errors(ExpectedErrors(RewriteUnaryMinus(Substitute(ts).value)))
  {
    ConvertSpec(RewriteUnaryMinus(Substitute(ts).value));
  }

  /** The first `)` that closes more brackets than were opened ends the run
      with an IndexError, whatever follows. */
  lemma UnmatchedCloseEval(ts: seq<Token>, n: nat, apply: (string, real) -> MathResult, power: (real, real) -> Option<real>)
    requires Substitute(ts).Done? && 0 < n <= |ts| && NeverNegative(ts[..n - 1]) && Balance(ts[..n]) < 0
    ensures EvalLexTokens(ts, apply, power) == Crash(UnmatchedClose(ts[n - 1].charIndex))
  {
    FirstUnmatchedAt(ts, n);
    UnmatchedCloseExactly(ts, apply, power);
  }

  /** With the constants known, the run crashes on a `)` exactly when the
      tokens hold an unmatched `)`, and it names the first one: substitution
      keeps every bracket, and each inserted `( 0 - X )` is balanced. */
  lemma UnmatchedCloseExactly(ts: seq<Token>, apply: (string, real) -> MathResult, power: (real, real) -> Option<real>)
    requires Substitute(ts).Done?
    ensures (EvalLexTokens(ts, apply, power).Crash? && EvalLexTokens(ts, apply, power).reason.UnmatchedClose?)
            <==> FirstUnmatched(ts, 0).Some?
    ensures FirstUnmatched(ts, 0).Some? ==>
              EvalLexTokens(ts, apply, power) == Crash(UnmatchedClose(FirstUnmatched(ts, 0).value))
  {
    var subst := Substitute(ts).value;
    SubstituteKeepsUnmatched(ts, subst, 0);
    RewriteKeepsUnmatched(subst, None, 0);
    ConvertFirstUnmatched(RewriteUnaryMinus(subst));
  }

  /** Substitution changes no bracket and no offset. */
  lemma {:induction false} SubstituteKeepsUnmatched(ts: seq<Token>, us: seq<Token>, depth: nat)
    requires |us| == |ts| && forall k :: 0 <= k < |ts| ==> SubstitutedAs(ts[k], us[k])
    ensures FirstUnmatched(us, depth) == FirstUnmatched(ts, depth)
    decreases |ts|
  {
    if |ts| > 0 {
      assert SubstitutedAs(ts[0], us[0]);
      assert forall k :: 0 <= k < |ts| - 1 ==> ts[1..][k] == ts[k + 1] && us[1..][k] == us[k + 1];
      var d: nat := match ts[0].kind case Open => depth + 1 case Close => (if depth == 0 then 0 else depth - 1) case _ => depth;
      SubstituteKeepsUnmatched(ts[1..], us[1..], d);
    }
  }

  /** The unary-minus rewrite moves the first unmatched `)` nowhere: an
      inserted group opens one bracket and closes it again. */
  lemma {:induction false} RewriteKeepsUnmatched(ts: seq<Token>, prev: Option<Kind>, depth: nat)
    ensures FirstUnmatched(Rw(ts, prev), depth) == FirstUnmatched(ts, depth)
    decreases |ts|
  {
    if |ts| > 0 {
      if UnaryHead(ts, prev) {
        var rest := Rw(ts[2..], Some(Close));
        assert Rw(ts, prev) == [OpenTok, ZeroTok, ts[0], ts[1], CloseTok] + rest;
        GroupKeepsUnmatched(ts[0], ts[1], rest, depth);
        MinusOperandKeepsUnmatched(ts, depth);
        RewriteKeepsUnmatched(ts[2..], Some(Close), depth);
      } else {
        var r := Rw(ts, prev);
        assert r[1..] == Rw(ts[1..], Some(ts[0].kind));
        var d: nat := match ts[0].kind case Open => depth + 1 case Close => (if depth == 0 then 0 else depth - 1) case _ => depth;
        RewriteKeepsUnmatched(ts[1..], Some(ts[0].kind), d);
      }
    }
  }

  /** A group `( 0 - X )` leaves the bracket depth where it found it. */
  lemma GroupKeepsUnmatched(m: Token, a: Token, rest: seq<Token>, depth: nat)
    requires m.kind == Sub && IsOperandKind(a.kind)
    ensures FirstUnmatched([OpenTok, ZeroTok, m, a, CloseTok] + rest, depth) == FirstUnmatched(rest, depth)
  {
    var r := [OpenTok, ZeroTok, m, a, CloseTok] + rest;
    assert r[1..][1..] == r[2..] && r[2..][1..] == r[3..] && r[3..][1..] == r[4..] && r[4..][1..] == rest;
    assert FirstUnmatched(r, depth) == FirstUnmatched(r[2..], depth + 1);
    assert FirstUnmatched(r[2..], depth + 1) == FirstUnmatched(r[4..], depth + 1);
  }

  /** A minus and an operand leave the bracket depth where they found it. */
  lemma MinusOperandKeepsUnmatched(ts: seq<Token>, depth: nat)
    requires |ts| >= 2 && ts[0].kind == Sub && IsOperandKind(ts[1].kind)
    ensures FirstUnmatched(ts, depth) == FirstUnmatched(ts[2..], depth)
  {
    assert ts[1..][1..] == ts[2..];
  }

  /** A zero divisor: the division's offset is reported and nothing else. */
  lemma DivisionByZeroEval(a: Token, d: Token, b: Token, apply: (string, real) -> MathResult, power: (real, real) -> Option<real>)
    requires a.kind == Number && d.kind == Div && b.kind == Number
    requires ParseDecimal(a.lexeme).Some? && ParseDecimal(b.lexeme) == Some(0.0)
    ensures EvalLexTokens([a, d, b], apply, power) == Errors([DivisionByZero(d.charIndex)])
  {
    BinaryConverts(a, d, b, apply, power);
    assert Flatten(Node(d, Leaf(a), Leaf(b))) == [a] + [b] + [d] == [a, b, d];
    DivisionByZeroStops(d, Leaf(a), Leaf(b), Machine([], []), apply, power);
  }

  /** `a o b` converts to `a b o`. */
  lemma BinaryConverts(a: Token, o: Token, b: Token, apply: (string, real) -> MathResult, power: (real, real) -> Option<real>)
    requires a.kind == Number && Binary(o.kind) && b.kind == Number
    ensures EvalLexTokens([a, o, b], apply, power) == EvalPostfix([a, b, o], apply, power)
  {
    var ts := [a, o, b];
    assert !UnaryAt(ts, 1);
    ScanThree(a, o, b);
    ConvertClean(ts, Yard([o], [a, b], 0, []));
    assert [a, b] + Reverse([o]) == [a, b, o];
    PlainConverts(ts, [a, b, o], apply, power);
  }

  /** Two numbers side by side: both are left on the stack, and their count is reported. */
  lemma TwoNumbersEval(a: Token, b: Token, apply: (string, real) -> MathResult, power: (real, real) -> Option<real>)
    requires a.kind == Number && b.kind == Number
    requires ParseDecimal(a.lexeme).Some? && ParseDecimal(b.lexeme).Some?
    ensures EvalLexTokens([a, b], apply, power) == Errors([TooFewOperators(2)])
  {
    var ts := [a, b];
    assert Plain(ts);
    PlainEval(ts, apply, power);
    var y0 := Yard([], [], 0, []);
    ScanSnoc([], a, y0);
    assert [] + [a] == [a];
    var y1 := Yard([], [a], 0, []);
    ScanSnoc([a], b, y1);
    assert [a] + [b] == [a, b];
    ConvertClean(ts, Yard([], [a, b], 0, []));
    assert [a, b] + Reverse([]) == [a, b];
    TwoValuesLeft(Leaf(a), Leaf(b), apply, power);
  }

  /** `a o f(b)`: the function pops `o` onto the output before `b`, so `o`
      finds one operand and the run stops with the second-pop error. */
  lemma FunctionAfterOperatorEval(a: Token, o: Token, f: Token, l: Token, b: Token, r: Token,
                                  apply: (string, real) -> MathResult, power: (real, real) -> Option<real>)
    requires a.kind == Number && Binary(o.kind) && f.kind == Function && l.kind == Open
    requires b.kind == Number && r.kind == Close && ParseDecimal(a.lexeme).Some?
    ensures EvalLexTokens([a, o, f, l, b, r], apply, power) == Errors([TooManyOperators(1)])
  {
    FunctionConverts(a, o, f, l, b, r, apply, power);
    assert [a, o, b, f] == Flatten(Leaf(a)) + [o] + [b, f];
    OneOperandShort(Leaf(a), o, [b, f], apply, power);
  }

  lemma FunctionConverts(a: Token, o: Token, f: Token, l: Token, b: Token, r: Token,
                         apply: (string, real) -> MathResult, power: (real, real) -> Option<real>)
    requires a.kind == Number && Binary(o.kind) && f.kind == Function && l.kind == Open
    requires b.kind == Number && r.kind == Close
    ensures EvalLexTokens([a, o, f, l, b, r], apply, power) == EvalPostfix([a, o, b, f], apply, power)
  {
    var ts := [a, o, f, l, b, r];
    assert !UnaryAt(ts, 1);
    FunctionPopsPending(a, o, f, l, b, r);
    PlainConverts(ts, [a, o, b, f], apply, power);
  }

  /** Empty brackets leave nothing to read the result from. */
  lemma EmptyBracketsEval(l: Token, r: Token, apply: (string, real) -> MathResult, power: (real, real) -> Option<real>)
    requires l.kind == Open && r.kind == Close
    ensures EvalLexTokens([l, r], apply, power) == Crash(EmptyResult)
  {
    var ts := [l, r];
    assert Plain(ts);
    PlainEval(ts, apply, power);
    ScanOpen(l);
    ScanSnoc([l], r, Yard([l], [], 1, []));
    assert [l] + [r] == [l, r];
    assert DropLast([l]) == [] && Last([l]) == l;
    assert PopToOpen([l], []) == Some(Popped([], []));
    ConvertClean(ts, Yard([], [], 0, []));
    assert Reverse<Token>([]) == [];
  }

  /** No tokens at all: the same IndexError. */
  lemma NothingEval(apply: (string, real) -> MathResult, power: (real, real) -> Option<real>)
    ensures EvalLexTokens([], apply, power) == Crash(EmptyResult)
  {
    assert Plain([]);
    PlainEval([], apply, power);
    assert Convert([]) == Done(Postfix([]));
  }

  /** A lone point lexes as a number and raises when evaluated. */
  lemma LonePointEval(t: Token, apply: (string, real) -> MathResult, power: (real, real) -> Option<real>)
    requires t.kind == Number && t.lexeme == "."
    ensures EvalLexTokens([t], apply, power) == Crash(BadDecimal("."))
  {
    assert Plain([t]);
    PlainEval([t], apply, power);
    ScanSnoc([], t, Yard([], [], 0, []));
    assert [] + [t] == [t];
    ConvertClean([t], Yard([], [t], 0, []));
    assert [t] + Reverse([]) == [t] + [];
    LonePointRaises(t, [], apply, power);
  }
}
