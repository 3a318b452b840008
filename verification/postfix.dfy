/** The infix-to-postfix conversion of `eval_lex_tokens` (shunting-yard), with
    `get_op_precedence`, the bracket counter and the function-token rule. */
module Postfix {
  import opened Wrappers
  import opened Tokens
  import opened Diagnostics

  // ---------------------------------------------------------------------------
  // Precedence and token classes
  // ---------------------------------------------------------------------------

  /** `get_op_precedence`: larger binds tighter; functions rank with `+` and `-`,
      and kinds that are not operators get -1. */
  function Prec(k: Kind): int {
    match k
    case NoKind | Open => 0
    case Add | Sub => 1
    case Mul | Div => 2
    case Exp => 3
    case Function => 1
    case _ => -1
  }

  /** Kinds the converter reports as unknown or bad instead of converting. */
  predicate Unrecognised(k: Kind) {
    k == Bad || k == NoKind
  }

  /** The operand tokens of `ts`, in order. */
  function Operands(ts: seq<Token>): seq<Token> {
    if |ts| == 0 then []
    else Operands(DropLast(ts)) + (if IsOperandKind(Last(ts).kind) then [Last(ts)] else [])
  }

  /** The operator tokens of `ts`, as a bag. */
  function Operators(ts: seq<Token>): multiset<Token> {
    if |ts| == 0 then multiset{}
    else Operators(DropLast(ts)) + (if IsOperator(Last(ts).kind) then multiset{Last(ts)} else multiset{})
  }

  /** The number of `(` tokens in `ts`. */
  function Opens(ts: seq<Token>): nat {
    if |ts| == 0 then 0
    else Opens(DropLast(ts)) + (if Last(ts).kind == Open then 1 else 0)
  }

  /** Net number of open brackets in `ts`: `(` counts one, `)` minus one. */
  function Balance(ts: seq<Token>): int {
    if |ts| == 0 then 0
    else Balance(DropLast(ts)) + (match Last(ts).kind case Open => 1 case Close => -1 case _ => 0)
  }

  /** No prefix of `ts` closes a bracket that was not opened. */
  predicate NeverNegative(ts: seq<Token>) {
    |ts| == 0 || (NeverNegative(DropLast(ts)) && Balance(ts) >= 0)
  }

  /** The error the converter records for each unrecognised token, in order. */
  function BadReports(ts: seq<Token>): seq<EvalError> {
    if |ts| == 0 then []
    else BadReports(DropLast(ts)) + (if Unrecognised(Last(ts).kind) then [BadToken(Last(ts).charIndex)] else [])
  }

  /** What one more token adds to each count. */
  lemma Snoc(ts: seq<Token>, t: Token)
    ensures Operands(ts + [t]) == Operands(ts) + (if IsOperandKind(t.kind) then [t] else [])
    ensures Operators(ts + [t]) == Operators(ts) + (if IsOperator(t.kind) then multiset{t} else multiset{})
    ensures Opens(ts + [t]) == Opens(ts) + (if t.kind == Open then 1 else 0)
    ensures Balance(ts + [t]) == Balance(ts) + (match t.kind case Open => 1 case Close => -1 case _ => 0)
    ensures BadReports(ts + [t]) == BadReports(ts) + (if Unrecognised(t.kind) then [BadToken(t.charIndex)] else [])
  {
    assert DropLast(ts + [t]) == ts && Last(ts + [t]) == t;
  }

  lemma {:induction false} CountsAppend(a: seq<Token>, b: seq<Token>)
    ensures Operands(a + b) == Operands(a) + Operands(b)
    ensures Operators(a + b) == Operators(a) + Operators(b)
    ensures Opens(a + b) == Opens(a) + Opens(b)
    decreases |b|
  {
    if |b| == 0 {
      assert a + b == a;
    } else {
      assert DropLast(a + b) == a + DropLast(b);
      assert Last(a + b) == Last(b);
      CountsAppend(a, DropLast(b));
    }
  }

  /** Only operators: no operands and no brackets. */
  predicate AllOperators(ts: seq<Token>) {
    forall k :: 0 <= k < |ts| ==> IsOperator(ts[k].kind)
  }

  lemma {:induction false} OperatorsOnly(ts: seq<Token>)
    requires AllOperators(ts)
    ensures Operands(ts) == [] && Opens(ts) == 0
  {
    if |ts| > 0 {
      OperatorsOnly(DropLast(ts));
    }
  }

  lemma {:induction false} OperatorsReverse(ts: seq<Token>)
    ensures Operators(Reverse(ts)) == Operators(ts)
  {
    if |ts| > 0 {
      var l, d := Last(ts), DropLast(ts);
      assert Reverse(ts) == [l] + Reverse(d);
      CountsAppend([l], Reverse(d));
      OperatorsReverse(d);
      assert DropLast([l]) == [];
    }
  }

  /** There is a `(` in `ts` exactly when their count is positive. */
  lemma {:induction false} OpensPositive(ts: seq<Token>)
    ensures Opens(ts) > 0 <==> exists k :: 0 <= k < |ts| && ts[k].kind == Open
  {
    if |ts| > 0 {
      OpensPositive(DropLast(ts));
      if Last(ts).kind != Open && exists k :: 0 <= k < |ts| && ts[k].kind == Open {
        var k :| 0 <= k < |ts| && ts[k].kind == Open;
        assert DropLast(ts)[k].kind == Open;
      }
      if exists k :: 0 <= k < |ts| - 1 && DropLast(ts)[k].kind == Open {
        var k :| 0 <= k < |ts| - 1 && DropLast(ts)[k].kind == Open;
        assert ts[k].kind == Open;
      }
    }
  }

  // ---------------------------------------------------------------------------
  // Popping the operator stack
  // ---------------------------------------------------------------------------

  /** The stack and output after popping some operators to the output. */
  datatype Popped = Popped(ops: seq<Token>, out: seq<Token>)

  /** `r` is `ops` and `out` after popping the top `|ops| - |r.ops|` entries of
      `ops` to `out`, one by one. */
  predicate Moved(ops: seq<Token>, out: seq<Token>, r: Popped) {
    && |r.ops| <= |ops|
    && r.ops == ops[..|r.ops|]
    && r.out == out + Reverse(ops[|r.ops|..])
  }

  lemma MovedStep(ops: seq<Token>, out: seq<Token>, r: Popped)
    requires |ops| > 0 && Moved(DropLast(ops), out + [Last(ops)], r)
    ensures Moved(ops, out, r)
  {
    var m := |r.ops|;
    assert ops[..m] == DropLast(ops)[..m];
    assert DropLast(ops[m..]) == DropLast(ops)[m..];
    assert Last(ops[m..]) == Last(ops);
  }

  /** The loop of a binary operator of precedence `p`: pop while the top's
      precedence is at least `p` (an empty stack counts as precedence 0). */
  function PopAtLeast(ops: seq<Token>, out: seq<Token>, p: int): Popped
    requires p >= 1
    decreases |ops|
  {
    if |ops| == 0 || Prec(Last(ops).kind) < p then Popped(ops, out)
    else PopAtLeast(DropLast(ops), out + [Last(ops)], p)
  }

  /** Popping for a binary operator moves exactly the top entries of precedence
      at least `p`, stopping below them. */
  lemma {:induction false} PopAtLeastSpec(ops: seq<Token>, out: seq<Token>, p: int)
    requires p >= 1
    ensures Moved(ops, out, PopAtLeast(ops, out, p))
    ensures forall k :: |PopAtLeast(ops, out, p).ops| <= k < |ops| ==> Prec(ops[k].kind) >= p
    ensures |PopAtLeast(ops, out, p).ops| == 0 || Prec(Last(PopAtLeast(ops, out, p).ops).kind) < p
    decreases |ops|
  {
    if |ops| == 0 || Prec(Last(ops).kind) < p {
      assert ops[|ops|..] == [];
    } else {
      var r := PopAtLeast(DropLast(ops), out + [Last(ops)], p);
      PopAtLeastSpec(DropLast(ops), out + [Last(ops)], p);
      MovedStep(ops, out, r);
      assert forall k :: 0 <= k < |ops| - 1 ==> ops[k] == DropLast(ops)[k];
    }
  }

  /** The loop of a function token: pop while the top is not a function and its
      precedence is at least that of a function (1). */
  function PopForFunction(ops: seq<Token>, out: seq<Token>): Popped
    decreases |ops|
  {
    if |ops| == 0 || Prec(Last(ops).kind) < Prec(Function) || Last(ops).kind == Function then Popped(ops, out)
    else PopForFunction(DropLast(ops), out + [Last(ops)])
  }

  /** Popping for a function moves exactly the top entries that rank with or
      above a function and are not functions. */
  lemma {:induction false} PopForFunctionSpec(ops: seq<Token>, out: seq<Token>)
    ensures Moved(ops, out, PopForFunction(ops, out))
    ensures forall k :: |PopForFunction(ops, out).ops| <= k < |ops| ==>
              Prec(ops[k].kind) >= Prec(Function) && ops[k].kind != Function
    ensures var r := PopForFunction(ops, out);
            |r.ops| == 0 || Prec(Last(r.ops).kind) < Prec(Function) || Last(r.ops).kind == Function
    decreases |ops|
  {
    if |ops| == 0 || Prec(Last(ops).kind) < Prec(Function) || Last(ops).kind == Function {
      assert ops[|ops|..] == [];
    } else {
      var r := PopForFunction(DropLast(ops), out + [Last(ops)]);
      PopForFunctionSpec(DropLast(ops), out + [Last(ops)]);
      MovedStep(ops, out, r);
      assert forall k :: 0 <= k < |ops| - 1 ==> ops[k] == DropLast(ops)[k];
    }
  }

  /** The loop of a `)`: pop to the output until the top is a `(`, which is
      dropped. Reading the top of an empty stack raises, so there is no result
      when no `(` is pending. */
  function PopToOpen(ops: seq<Token>, out: seq<Token>): Option<Popped>
    decreases |ops|
  {
    if |ops| == 0 then None
    else if Last(ops).kind == Open then Some(Popped(DropLast(ops), out))
    else PopToOpen(DropLast(ops), out + [Last(ops)])
  }

  /** Popping for a `)` fails exactly when no `(` is on the stack, and
      otherwise stops at the topmost one. */
  lemma {:induction false} PopToOpenSpec(ops: seq<Token>, out: seq<Token>)
    ensures PopToOpen(ops, out).None? <==> forall k :: 0 <= k < |ops| ==> ops[k].kind != Open
    ensures PopToOpen(ops, out).Some? ==> PoppedToOpen(ops, out, PopToOpen(ops, out).value)
    decreases |ops|
  {
    if |ops| == 0 {
    } else if Last(ops).kind == Open {
      assert ops[|ops|..] == [];
    } else {
      var r := PopToOpen(DropLast(ops), out + [Last(ops)]);
      PopToOpenSpec(DropLast(ops), out + [Last(ops)]);
      if r.Some? {
        PoppedToOpenStep(ops, out, r.value);
      } else {
        assert forall k :: 0 <= k < |ops| - 1 ==> ops[k] == DropLast(ops)[k];
      }
    }
  }

  /** `p` is what popping down to the topmost `(` leaves: the stack below that
      bracket, and the output with the operators above it moved across and the
      bracket itself dropped. */
  predicate PoppedToOpen(ops: seq<Token>, out: seq<Token>, p: Popped) {
    && |p.ops| < |ops|
    && ops[|p.ops|].kind == Open
    && p.ops == ops[..|p.ops|]
    && Moved(ops, out, Popped(ops[..|p.ops| + 1], p.out))
    && forall k :: |p.ops| < k < |ops| ==> ops[k].kind != Open
  }

  lemma PoppedToOpenStep(ops: seq<Token>, out: seq<Token>, p: Popped)
    requires |ops| > 0 && Last(ops).kind != Open && PoppedToOpen(DropLast(ops), out + [Last(ops)], p)
    ensures PoppedToOpen(ops, out, p)
  {
    var m := |p.ops|;
    assert DropLast(ops)[..m + 1] == ops[..m + 1];
    assert DropLast(ops)[..m] == ops[..m];
    MovedStep(ops, out, Popped(ops[..m + 1], p.out));
    assert forall k :: m < k < |ops| - 1 ==> ops[k] == DropLast(ops)[k];
  }

  // ---------------------------------------------------------------------------
  // The conversion
  // ---------------------------------------------------------------------------

  /** The converter's state: operator stack, output, bracket counter, errors. */
  datatype Yard = Yard(ops: seq<Token>, out: seq<Token>, open: int, errs: seq<EvalError>)

  /** The converter's handling of one token. */
  function Step(y: Yard, t: Token): Stage<Yard> {
    match t.kind
    case Identifier | Const | Number => Done(y.(out := y.out + [t]))
    case Open => Done(y.(ops := y.ops + [t], open := y.open + 1))
    case Close =>
      (match PopToOpen(y.ops, y.out)
       case None => Crashed(UnmatchedClose(t.charIndex))
       case Some(p) => Done(Yard(p.ops, p.out, y.open - 1, y.errs)))
    case Function =>
      var p := PopForFunction(y.ops, y.out);
      Done(Yard(p.ops + [t], p.out, y.open, y.errs))
    case Add | Sub | Mul | Div | Exp =>
      var p := PopAtLeast(y.ops, y.out, Prec(t.kind));
      Done(Yard(p.ops + [t], p.out, y.open, y.errs))
    case Bad | NoKind => Done(y.(errs := y.errs + [BadToken(t.charIndex)]))
  }

  /** The converter's state after the tokens of `ts`, left to right. */
  function Scan(ts: seq<Token>): Stage<Yard> {
    if |ts| == 0 then Done(Yard([], [], 0, []))
    else
      match Scan(DropLast(ts))
      case Crashed(why) => Crashed(why)
      case Done(y) => Step(y, Last(ts))
  }

  /** A postfix list, or the errors that made the conversion give up. */
  datatype Conversion = Postfix(tokens: seq<Token>) | Rejected(errs: seq<EvalError>)

  /** The whole conversion: scan, pop what is left on the stack, add the
      unclosed-bracket error, and keep the postfix list only without errors. */
  function Convert(ts: seq<Token>): Stage<Conversion> {
    match Scan(ts)
    case Crashed(why) => Crashed(why)
    case Done(y) =>
      var out := y.out + Reverse(y.ops);
      var errs := if y.open > 0 then y.errs + [UnclosedBrackets(y.open)] else y.errs;
      if |errs| > 0 then Done(Rejected(errs)) else Done(Postfix(out))
  }

  // ---------------------------------------------------------------------------
  // The converter's invariant
  // ---------------------------------------------------------------------------

  /** The shape of the operator stack: only brackets and operators, and between
      two brackets the precedences strictly increase upwards, except that
      functions may sit on functions. */
  predicate StackShape(ops: seq<Token>) {
    && (forall k :: 0 <= k < |ops| ==> ops[k].kind == Open || IsOperator(ops[k].kind))
    && (forall k :: 0 < k < |ops| ==> RanksAbove(ops, k))
  }

  /** Entry `k` of the stack ranks above entry `k - 1`, unless either is a
      bracket or both are functions. */
  predicate RanksAbove(ops: seq<Token>, k: int)
    requires 0 < k < |ops|
  {
    ops[k - 1].kind != Open && ops[k].kind != Open ==>
      || Prec(ops[k - 1].kind) < Prec(ops[k].kind)
      || (ops[k - 1].kind == Function && ops[k].kind == Function)
  }

  /** The output holds only operands and operators. */
  predicate OutKinds(out: seq<Token>) {
    forall k :: 0 <= k < |out| ==> IsOperandKind(out[k].kind) || IsOperator(out[k].kind)
  }

  /** What the state after `ts` says about `ts`: the stack's shape, the bracket
      counter, operands in input order, no operator lost, one error per
      unrecognised token. */
  predicate YardInv(ts: seq<Token>, y: Yard) {
    && StackShape(y.ops)
    && y.open == Opens(y.ops) == Balance(ts)
    && OutKinds(y.out)
    && Operands(y.out) == Operands(ts)
    && Operators(y.out) + Operators(y.ops) == Operators(ts)
    && y.errs == BadReports(ts)
  }

  /** Popping operators (never a bracket) from the stack to the output. */
  predicate MovedOperators(ops: seq<Token>, out: seq<Token>, r: Popped) {
    && Moved(ops, out, r)
    && AllOperators(ops[|r.ops|..])
  }

  lemma MovedOpens(ops: seq<Token>, out: seq<Token>, r: Popped)
    requires MovedOperators(ops, out, r)
    ensures Opens(r.ops) == Opens(ops)
  {
    var moved := ops[|r.ops|..];
    assert ops == r.ops + moved;
    CountsAppend(r.ops, moved);
    OperatorsOnly(moved);
  }

  lemma MovedOperands(ops: seq<Token>, out: seq<Token>, r: Popped)
    requires MovedOperators(ops, out, r)
    ensures Operands(r.out) == Operands(out)
    ensures OutKinds(out) ==> OutKinds(r.out)
  {
    var moved := Reverse(ops[|r.ops|..]);
    CountsAppend(out, moved);
    assert AllOperators(moved);
    OperatorsOnly(moved);
  }

  lemma MovedBag(ops: seq<Token>, out: seq<Token>, r: Popped)
    requires Moved(ops, out, r)
    ensures Operators(r.out) + Operators(r.ops) == Operators(out) + Operators(ops)
  {
    var moved := ops[|r.ops|..];
    assert ops == r.ops + moved;
    CountsAppend(r.ops, moved);
    CountsAppend(out, Reverse(moved));
    OperatorsReverse(moved);
  }

  lemma MovedCounts(ops: seq<Token>, out: seq<Token>, r: Popped)
    requires MovedOperators(ops, out, r)
    ensures Opens(r.ops) == Opens(ops)
    ensures Operands(r.out) == Operands(out)
    ensures Operators(r.out) + Operators(r.ops) == Operators(out) + Operators(ops)
    ensures OutKinds(out) ==> OutKinds(r.out)
  {
    MovedOpens(ops, out, r);
    MovedOperands(ops, out, r);
    MovedBag(ops, out, r);
  }

  /** Pushing a bracket, or an operator on a stack whose top is a bracket or
      ranks below it. */
  lemma PushShape(ops: seq<Token>, t: Token)
    requires StackShape(ops) && (t.kind == Open || IsOperator(t.kind))
    requires |ops| == 0 || t.kind == Open || Last(ops).kind == Open || Prec(Last(ops).kind) < Prec(t.kind)
             || (Last(ops).kind == Function && t.kind == Function)
    ensures StackShape(ops + [t])
  {
    var s := ops + [t];
    forall k | 0 < k < |s|
      ensures RanksAbove(s, k)
    {
      if k < |ops| {
        assert RanksAbove(ops, k);
        assert s[k - 1] == ops[k - 1] && s[k] == ops[k];
      }
    }
  }

  lemma ShapePrefix(ops: seq<Token>, m: nat)
    requires StackShape(ops) && m <= |ops|
    ensures StackShape(ops[..m])
  {
    var s := ops[..m];
    forall k | 0 < k < m
      ensures RanksAbove(s, k)
    {
      assert RanksAbove(ops, k);
      assert s[k - 1] == ops[k - 1] && s[k] == ops[k];
    }
  }

  /** A token that pops operators and pushes itself keeps the invariant. */
  lemma PushAfterPop(ts: seq<Token>, y: Yard, t: Token, p: Popped)
    requires YardInv(ts, y) && IsOperator(t.kind) && MovedOperators(y.ops, y.out, p)
    requires StackShape(p.ops + [t])
    ensures YardInv(ts + [t], Yard(p.ops + [t], p.out, y.open, y.errs))
  {
    PushCounts(ts, y.ops, y.out, t, p);
  }

  /** The counts part of `PushAfterPop`. */
  lemma PushCounts(ts: seq<Token>, ops: seq<Token>, out: seq<Token>, t: Token, p: Popped)
    requires MovedOperators(ops, out, p) && IsOperator(t.kind)
    requires Opens(ops) == Balance(ts) && Operands(out) == Operands(ts)
    requires Operators(out) + Operators(ops) == Operators(ts)
    ensures Opens(p.ops + [t]) == Balance(ts + [t]) == Balance(ts)
    ensures Operands(p.out) == Operands(ts + [t])
    ensures Operators(p.out) + Operators(p.ops + [t]) == Operators(ts + [t])
    ensures OutKinds(out) ==> OutKinds(p.out)
    ensures BadReports(ts + [t]) == BadReports(ts)
  {
    Snoc(ts, t);
    Snoc(p.ops, t);
    MovedCounts(ops, out, p);
  }

  lemma OperandInv(ts: seq<Token>, y: Yard, t: Token)
    requires YardInv(ts, y) && IsOperandKind(t.kind)
    ensures YardInv(ts + [t], y.(out := y.out + [t]))
  {
    Snoc(ts, t);
    Snoc(y.out, t);
  }

  lemma StepOperand(ts: seq<Token>, y: Yard, t: Token)
    requires YardInv(ts, y) && IsOperandKind(t.kind)
    ensures Step(y, t) == Done(y.(out := y.out + [t]))
    ensures YardInv(ts + [t], y.(out := y.out + [t]))
  {
    StepOperandEq(y, t);
    OperandInv(ts, y, t);
  }

  lemma OpenInv(ts: seq<Token>, y: Yard, t: Token)
    requires YardInv(ts, y) && t.kind == Open
    ensures YardInv(ts + [t], y.(ops := y.ops + [t], open := y.open + 1))
  {
    Snoc(ts, t);
    Snoc(y.ops, t);
    PushShape(y.ops, t);
  }

  lemma StepOpen(ts: seq<Token>, y: Yard, t: Token)
    requires YardInv(ts, y) && t.kind == Open
    ensures Step(y, t) == Done(y.(ops := y.ops + [t], open := y.open + 1))
    ensures YardInv(ts + [t], y.(ops := y.ops + [t], open := y.open + 1))
  {
    StepOpenEq(y, t);
    OpenInv(ts, y, t);
  }

  lemma UnrecognisedInv(ts: seq<Token>, y: Yard, t: Token)
    requires YardInv(ts, y) && Unrecognised(t.kind)
    ensures YardInv(ts + [t], y.(errs := y.errs + [BadToken(t.charIndex)]))
  {
    Snoc(ts, t);
  }

  lemma StepUnrecognisedEq(y: Yard, t: Token)
    requires Unrecognised(t.kind)
    ensures Step(y, t) == Done(y.(errs := y.errs + [BadToken(t.charIndex)]))
  {
  }

  lemma StepUnrecognised(ts: seq<Token>, y: Yard, t: Token)
    requires YardInv(ts, y) && Unrecognised(t.kind)
    ensures Step(y, t) == Done(y.(errs := y.errs + [BadToken(t.charIndex)]))
    ensures YardInv(ts + [t], y.(errs := y.errs + [BadToken(t.charIndex)]))
  {
    StepUnrecognisedEq(y, t);
    UnrecognisedInv(ts, y, t);
  }

  /** The state after a function token: the stack popped for it, then pushed. */
  function AfterFunction(y: Yard, t: Token): Yard {
    var p := PopForFunction(y.ops, y.out);
    Yard(p.ops + [t], p.out, y.open, y.errs)
  }

  lemma StepFunctionEq(y: Yard, t: Token)
    requires t.kind == Function
    ensures Step(y, t) == Done(AfterFunction(y, t))
  {
  }

  lemma FunctionInv(ts: seq<Token>, y: Yard, t: Token)
    requires YardInv(ts, y) && t.kind == Function
    ensures YardInv(ts + [t], AfterFunction(y, t))
  {
    var p := PopForFunction(y.ops, y.out);
    FunctionPopShape(y.ops, y.out, t);
    PushAfterPop(ts, y, t, p);
  }

  /** What popping for a function leaves: only operators moved, and a stack
      the function can be pushed onto. */
  lemma FunctionPopShape(ops: seq<Token>, out: seq<Token>, t: Token)
    requires StackShape(ops) && t.kind == Function
    ensures MovedOperators(ops, out, PopForFunction(ops, out))
    ensures StackShape(PopForFunction(ops, out).ops + [t])
  {
    var p := PopForFunction(ops, out);
    PopForFunctionSpec(ops, out);
    assert AllOperators(ops[|p.ops|..]) by {
      forall k | 0 <= k < |ops| - |p.ops|
        ensures IsOperator(ops[|p.ops|..][k].kind)
      {
        assert ops[|p.ops|..][k] == ops[|p.ops| + k];
      }
    }
    ShapePrefix(ops, |p.ops|);
    PushShape(p.ops, t);
  }

  lemma StepFunction(ts: seq<Token>, y: Yard, t: Token)
    requires YardInv(ts, y) && t.kind == Function
    ensures Step(y, t).Done? && YardInv(ts + [t], Step(y, t).value)
  {
    StepFunctionEq(y, t);
    FunctionInv(ts, y, t);
  }

  /** The state after a binary operator: the stack popped for it, then pushed. */
  function AfterBinary(y: Yard, t: Token): Yard
    requires Binary(t.kind)
  {
    var p := PopAtLeast(y.ops, y.out, Prec(t.kind));
    Yard(p.ops + [t], p.out, y.open, y.errs)
  }

  lemma StepBinaryEq(y: Yard, t: Token)
    requires Binary(t.kind)
    ensures Step(y, t) == Done(AfterBinary(y, t))
  {
  }

  lemma BinaryInv(ts: seq<Token>, y: Yard, t: Token)
    requires YardInv(ts, y) && Binary(t.kind)
    ensures YardInv(ts + [t], AfterBinary(y, t))
  {
    var p := PopAtLeast(y.ops, y.out, Prec(t.kind));
    BinaryPopShape(y.ops, y.out, t);
    PushAfterPop(ts, y, t, p);
  }

  /** What popping for a binary operator leaves: only operators moved, and a
      stack the operator can be pushed onto. */
  lemma BinaryPopShape(ops: seq<Token>, out: seq<Token>, t: Token)
    requires StackShape(ops) && Binary(t.kind)
    ensures MovedOperators(ops, out, PopAtLeast(ops, out, Prec(t.kind)))
    ensures StackShape(PopAtLeast(ops, out, Prec(t.kind)).ops + [t])
  {
    var p := PopAtLeast(ops, out, Prec(t.kind));
    PopAtLeastSpec(ops, out, Prec(t.kind));
    assert AllOperators(ops[|p.ops|..]) by {
      forall k | 0 <= k < |ops| - |p.ops|
        ensures IsOperator(ops[|p.ops|..][k].kind)
      {
        assert ops[|p.ops|..][k] == ops[|p.ops| + k];
      }
    }
    ShapePrefix(ops, |p.ops|);
    PushShape(p.ops, t);
  }

  lemma StepBinary(ts: seq<Token>, y: Yard, t: Token)
    requires YardInv(ts, y) && IsOperator(t.kind) && t.kind != Function
    ensures Step(y, t).Done? && YardInv(ts + [t], Step(y, t).value)
  {
    StepBinaryEq(y, t);
    BinaryInv(ts, y, t);
  }

  /** A `)` crashes exactly when the stack holds no `(`. */
  lemma StepCloseEq(y: Yard, t: Token)
    requires t.kind == Close
    ensures Step(y, t).Crashed? <==> PopToOpen(y.ops, y.out).None?
    ensures Step(y, t).Crashed? ==> Step(y, t).reason == UnmatchedClose(t.charIndex)
  {
  }

  /** A `(` is pending exactly when the balance so far is positive. */
  lemma PendingOpen(ts: seq<Token>, y: Yard)
    requires YardInv(ts, y)
    ensures PopToOpen(y.ops, y.out).None? <==> Balance(ts) == 0
  {
    PopToOpenSpec(y.ops, y.out);
    OpensPositive(y.ops);
  }

  /** A `)` crashes exactly when no `(` is pending. */
  lemma StepCloseCrash(ts: seq<Token>, y: Yard, t: Token)
    requires YardInv(ts, y) && t.kind == Close
    ensures Step(y, t).Crashed? <==> Balance(ts) == 0
    ensures Step(y, t).Crashed? ==> Step(y, t).reason == UnmatchedClose(t.charIndex)
  {
    StepCloseEq(y, t);
    PendingOpen(ts, y);
  }

  /** Popping down to a `(` and dropping it keeps the invariant. */
  lemma StepClose(ts: seq<Token>, y: Yard, t: Token)
    requires YardInv(ts, y) && t.kind == Close
    ensures Step(y, t).Done? ==> YardInv(ts + [t], Step(y, t).value)
  {
    var r := PopToOpen(y.ops, y.out);
    PopToOpenSpec(y.ops, y.out);
    if r.Some? {
      var q := r.value;
      var p := Popped(y.ops[..|q.ops| + 1], q.out);
      assert ClosePop(y.ops, y.out, q, p);
      Snoc(ts, t);
      CloseOpens(y.ops, y.out, q, p);
      CloseBag(y.ops, y.out, q, p);
      MovedOperands(y.ops, y.out, p);
      ShapePrefix(y.ops, |q.ops|);
    }
  }

  /** The stack after a `)`: `q.ops` lies below the matching `(`, and `p` is the
      popped state just before that `(` is dropped. */
  predicate ClosePop(ops: seq<Token>, out: seq<Token>, q: Popped, p: Popped) {
    && MovedOperators(ops, out, p)
    && |q.ops| < |ops| && ops[|q.ops|].kind == Open
    && p == Popped(ops[..|q.ops| + 1], q.out) && q.ops == ops[..|q.ops|]
  }

  lemma CloseOpens(ops: seq<Token>, out: seq<Token>, q: Popped, p: Popped)
    requires ClosePop(ops, out, q, p)
    ensures Opens(q.ops) + 1 == Opens(ops)
  {
    assert p.ops == q.ops + [ops[|q.ops|]];
    MovedOpens(ops, out, p);
    Snoc(q.ops, ops[|q.ops|]);
  }

  lemma CloseBag(ops: seq<Token>, out: seq<Token>, q: Popped, p: Popped)
    requires ClosePop(ops, out, q, p)
    ensures Operators(q.out) + Operators(q.ops) == Operators(out) + Operators(ops)
  {
    assert p.ops == q.ops + [ops[|q.ops|]];
    MovedBag(ops, out, p);
    Snoc(q.ops, ops[|q.ops|]);
  }

  /** One step of the converter keeps its invariant. */
  lemma StepInv(ts: seq<Token>, y: Yard, t: Token)
    requires YardInv(ts, y)
    ensures Step(y, t).Crashed? <==> t.kind == Close && Balance(ts) == 0
    ensures Step(y, t).Done? ==> YardInv(ts + [t], Step(y, t).value)
  {
    if IsOperandKind(t.kind) {
      StepOperand(ts, y, t);
    } else if t.kind == Open {
      StepOpen(ts, y, t);
    } else if t.kind == Close {
      StepCloseCrash(ts, y, t);
      StepClose(ts, y, t);
    } else if t.kind == Function {
      StepFunction(ts, y, t);
    } else if IsOperator(t.kind) {
      StepBinary(ts, y, t);
    } else {
      StepUnrecognised(ts, y, t);
    }
  }

  // ---------------------------------------------------------------------------
  // The whole conversion
  // ---------------------------------------------------------------------------

  lemma NeverNegativeSnoc(ts: seq<Token>, t: Token)
    ensures NeverNegative(ts + [t]) <==> NeverNegative(ts) && Balance(ts + [t]) >= 0
  {
    assert DropLast(ts + [t]) == ts;
  }

  /** `NeverNegative` says what its name promises: every prefix, the whole
      input included, has a non-negative balance. */
  lemma {:induction false} NeverNegativePrefixes(ts: seq<Token>)
    ensures NeverNegative(ts) <==> forall n :: 0 <= n <= |ts| ==> Balance(ts[..n]) >= 0
  {
    if |ts| > 0 {
      var d := DropLast(ts);
      NeverNegativePrefixes(d);
      assert ts[..|ts|] == ts;
      assert forall n :: 0 <= n <= |d| ==> ts[..n] == d[..n];
    }
  }

  /** The converter runs through `ts` without crashing exactly when no prefix
      closes more brackets than it opens; while it runs, its invariant holds. */
  lemma {:induction false} ScanInv(ts: seq<Token>)
    ensures Scan(ts).Done? <==> NeverNegative(ts)
    ensures Scan(ts).Done? ==> YardInv(ts, Scan(ts).value)
  {
    if |ts| > 0 {
      var d, t := DropLast(ts), Last(ts);
      assert ts == d + [t];
      ScanInv(d);
      NeverNegativeSnoc(d, t);
      Snoc(d, t);
      if Scan(d).Done? {
        StepInv(d, Scan(d).value, t);
      }
    }
  }

  /** Once the converter has crashed, later tokens do not matter. */
  lemma {:induction false} ScanCrashSticks(ts: seq<Token>, n: nat)
    requires n <= |ts| && Scan(ts[..n]).Crashed?
    ensures Scan(ts) == Scan(ts[..n])
    decreases |ts| - n
  {
    if n < |ts| {
      assert DropLast(ts[..n + 1]) == ts[..n];
      ScanCrashSticks(ts, n + 1);
    } else {
      assert ts[..n] == ts;
    }
  }

  /** The crash names the `)` that first closes more brackets than were opened. */
  lemma ScanCrashAt(ts: seq<Token>, n: nat)
    requires 0 < n <= |ts| && NeverNegative(ts[..n - 1]) && Balance(ts[..n]) < 0
    ensures Scan(ts) == Crashed(UnmatchedClose(ts[n - 1].charIndex))
  {
    assert ts[..n] == ts[..n - 1] + [ts[n - 1]];
    CrashHere(ts[..n - 1], ts[n - 1]);
    ScanCrashSticks(ts, n);
  }

  lemma CrashHere(d: seq<Token>, t: Token)
    requires NeverNegative(d) && Balance(d + [t]) < 0
    ensures Scan(d + [t]) == Crashed(UnmatchedClose(t.charIndex))
  {
    ScanInv(d);
    Snoc(d, t);
    assert Balance(d) >= 0;
    StepCloseCrash(d, Scan(d).value, t);
    assert DropLast(d + [t]) == d && Last(d + [t]) == t;
  }

  /** The errors `Convert` reports once the scan finished: one per unrecognised
      token, then the count of unclosed brackets if any. */
  function ExpectedErrors(ts: seq<Token>): seq<EvalError>
    requires Balance(ts) >= 0
  {
    BadReports(ts) + (if Balance(ts) > 0 then [UnclosedBrackets(Balance(ts))] else [])
  }

  /** Emptying a stack that holds no bracket. */
  lemma FinalPop(ts: seq<Token>, y: Yard)
    requires YardInv(ts, y) && Balance(ts) == 0
    ensures OutKinds(y.out + Reverse(y.ops))
    ensures Operands(y.out + Reverse(y.ops)) == Operands(ts)
    ensures Operators(y.out + Reverse(y.ops)) == Operators(ts)
  {
    var rest := Reverse(y.ops);
    OpensPositive(y.ops);
    assert AllOperators(y.ops);
    assert AllOperators(rest);
    OperatorsOnly(rest);
    CountsAppend(y.out, rest);
    OperatorsReverse(y.ops);
  }

  /** The conversion crashes exactly when some prefix closes an unopened bracket. */
  lemma ConvertCrash(ts: seq<Token>)
    ensures Convert(ts).Crashed? <==> !NeverNegative(ts)
    ensures NeverNegative(ts) ==> Balance(ts) >= 0
  {
    ScanInv(ts);
  }

  /** The only crash of the conversion is a `)` of the input with no `(` to match. */
  lemma {:induction false} ScanCrashReason(ts: seq<Token>)
    ensures Scan(ts).Crashed? ==>
              exists k :: 0 <= k < |ts| && ts[k].kind == Close && Scan(ts).reason == UnmatchedClose(ts[k].charIndex)
  {
    if |ts| > 0 {
      ScanCrashReason(DropLast(ts));
      if Scan(DropLast(ts)).Crashed? {
        var k :| 0 <= k < |ts| - 1 && DropLast(ts)[k].kind == Close
                 && Scan(DropLast(ts)).reason == UnmatchedClose(DropLast(ts)[k].charIndex);
        assert ts[k] == DropLast(ts)[k];
      }
    }
  }

  lemma ConvertCrashReason(ts: seq<Token>)
    ensures Convert(ts).Crashed? ==>
              exists k :: 0 <= k < |ts| && ts[k].kind == Close && Convert(ts).reason == UnmatchedClose(ts[k].charIndex)
  {
    ScanCrashReason(ts);
  }

  /** The offset of the first `)` that closes a bracket never opened, reading
      `ts` from the left with `depth` brackets already open; none if there is
      no such `)`. */
  function FirstUnmatched(ts: seq<Token>, depth: nat): Option<int> {
    if |ts| == 0 then None
    else match ts[0].kind
      case Open => FirstUnmatched(ts[1..], depth + 1)
      case Close => if depth == 0 then Some(ts[0].charIndex) else FirstUnmatched(ts[1..], depth - 1)
      case _ => FirstUnmatched(ts[1..], depth)
  }

  /** After a prefix `p` that closes nothing unopened, the rest crashes the
      conversion exactly at its first unmatched `)`, counting the brackets `p`
      left open. */
  lemma {:induction false} UnmatchedAfter(p: seq<Token>, rest: seq<Token>)
    requires NeverNegative(p) && Balance(p) >= 0
    ensures FirstUnmatched(rest, Balance(p)).Some? ==>
              Convert(p + rest) == Crashed(UnmatchedClose(FirstUnmatched(rest, Balance(p)).value))
    ensures FirstUnmatched(rest, Balance(p)).None? ==> NeverNegative(p + rest)
    decreases |rest|
  {
    if |rest| == 0 {
      assert p + rest == p;
    } else {
      var t := rest[0];
      var p' := p + [t];
      assert p + rest == p' + rest[1..];
      Snoc(p, t);
      NeverNegativeSnoc(p, t);
      if t.kind == Close && Balance(p) == 0 {
        assert (p + rest)[..|p|] == p && (p + rest)[..|p| + 1] == p';
        ScanCrashAt(p + rest, |p| + 1);
      } else {
        UnmatchedAfter(p', rest[1..]);
      }
    }
  }

  /** The conversion crashes exactly when the input has an unmatched `)`, and
      then names the offset of the first one. */
  lemma ConvertFirstUnmatched(ts: seq<Token>)
    ensures Convert(ts).Crashed? <==> FirstUnmatched(ts, 0).Some?
    ensures FirstUnmatched(ts, 0).Some? ==> Convert(ts) == Crashed(UnmatchedClose(FirstUnmatched(ts, 0).value))
  {
    UnmatchedAfter([], ts);
    assert [] + ts == ts;
    ConvertCrash(ts);
  }

  /** The prefix description of the first unmatched `)` and the left-to-right
      one agree. */
  lemma FirstUnmatchedAt(ts: seq<Token>, n: nat)
    requires 0 < n <= |ts| && NeverNegative(ts[..n - 1]) && Balance(ts[..n]) < 0
    ensures FirstUnmatched(ts, 0) == Some(ts[n - 1].charIndex)
  {
    ScanCrashAt(ts, n);
    ConvertFirstUnmatched(ts);
  }

  /** Without a crash, the conversion rejects with the expected errors when
      there are any; otherwise its postfix list holds the input's operands in
      input order, the input's operators, and nothing else (no brackets). */
  lemma ConvertSpec(ts: seq<Token>)
    requires NeverNegative(ts)
    ensures Balance(ts) >= 0
    ensures |ExpectedErrors(ts)| > 0 ==> Convert(ts) == Done(Rejected(ExpectedErrors(ts)))
    ensures |ExpectedErrors(ts)| == 0 ==>
              && Convert(ts).Done? && Convert(ts).value.Postfix?
              && OutKinds(Convert(ts).value.tokens)
              && Operands(Convert(ts).value.tokens) == Operands(ts)
              && Operators(Convert(ts).value.tokens) == Operators(ts)
  {
    ConvertCrash(ts);
    ScanInv(ts);
    var y := Scan(ts).value;
    assert y.open == Balance(ts) && y.errs == BadReports(ts);
    var errs := if y.open > 0 then y.errs + [UnclosedBrackets(y.open)] else y.errs;
    assert errs == ExpectedErrors(ts);
    if Balance(ts) == 0 {
      FinalPop(ts, y);
    }
  }

  // ---------------------------------------------------------------------------
  // Precedence and associativity
  // ---------------------------------------------------------------------------

  /** Scanning one more token. */
  lemma ScanSnoc(ts: seq<Token>, t: Token, y: Yard)
    requires Scan(ts) == Done(y)
    ensures Scan(ts + [t]) == Step(y, t)
  {
    assert DropLast(ts + [t]) == ts && Last(ts + [t]) == t;
  }

  lemma StepOperandEq(y: Yard, t: Token)
    requires IsOperandKind(t.kind)
    ensures Step(y, t) == Done(y.(out := y.out + [t]))
  {
  }

  lemma StepOpenEq(y: Yard, t: Token)
    requires t.kind == Open
    ensures Step(y, t) == Done(y.(ops := y.ops + [t], open := y.open + 1))
  {
  }

  /** A binary operator arriving on a stack whose top ranks below it is pushed. */
  lemma PushBinary(y: Yard, t: Token)
    requires Binary(t.kind) && (|y.ops| == 0 || Prec(Last(y.ops).kind) < Prec(t.kind))
    ensures Step(y, t) == Done(y.(ops := y.ops + [t]))
  {
  }

  /** A binary operator pops a lone operator of at least its precedence. */
  lemma PopThenPush(top: Token, out: seq<Token>, n: int, e: seq<EvalError>, t: Token)
    requires Binary(t.kind) && IsOperator(top.kind) && Prec(top.kind) >= Prec(t.kind)
    ensures Step(Yard([top], out, n, e), t) == Done(Yard([t], out + [top], n, e))
  {
    assert DropLast([top]) == [] && Last([top]) == top;
    assert PopAtLeast([], out + [top], Prec(t.kind)) == Popped([], out + [top]);
    assert PopAtLeast([top], out, Prec(t.kind)) == Popped([], out + [top]);
    assert [] + [t] == [t];
  }

  /** A function pops a lone binary operator. */
  lemma FunctionPops(top: Token, out: seq<Token>, n: int, e: seq<EvalError>, f: Token)
    requires f.kind == Function && Binary(top.kind)
    ensures Step(Yard([top], out, n, e), f) == Done(Yard([f], out + [top], n, e))
  {
    assert DropLast([top]) == [] && Last([top]) == top;
    assert PopForFunction([], out + [top]) == Popped([], out + [top]);
    assert PopForFunction([top], out) == Popped([], out + [top]);
    assert [] + [f] == [f];
  }

  /** A `)` right above its `(`. */
  lemma CloseAtOpen(below: Token, l: Token, out: seq<Token>, n: int, e: seq<EvalError>, r: Token)
    requires l.kind == Open && r.kind == Close
    ensures Step(Yard([below, l], out, n, e), r) == Done(Yard([below], out, n - 1, e))
  {
    assert DropLast([below, l]) == [below] && Last([below, l]) == l;
  }

  /** The end of a conversion that recorded no error and left no bracket open. */
  lemma ConvertClean(ts: seq<Token>, y: Yard)
    requires Scan(ts) == Done(y) && y.errs == [] && y.open == 0
    ensures Convert(ts) == Done(Postfix(y.out + Reverse(y.ops)))
  {
  }

  /** The state after `a o`. */
  lemma ScanTwo(a: Token, o: Token)
    requires IsOperandKind(a.kind) && Binary(o.kind)
    ensures Scan([a, o]) == Done(Yard([o], [a], 0, []))
  {
    ScanOne(a);
    ScanSnoc([a], o, Yard([], [a], 0, []));
    PushBinary(Yard([], [a], 0, []), o);
    assert [] + [o] == [o] && [a] + [o] == [a, o];
  }

  /** The state after one operand. */
  lemma ScanOne(a: Token)
    requires IsOperandKind(a.kind)
    ensures Scan([a]) == Done(Yard([], [a], 0, []))
  {
    ScanSnoc([], a, Yard([], [], 0, []));
    StepOperandEq(Yard([], [], 0, []), a);
    assert [] + [a] == [a];
  }

  /** The state after `a o1 b`. */
  lemma ScanThree(a: Token, o1: Token, b: Token)
    requires IsOperandKind(a.kind) && IsOperandKind(b.kind) && Binary(o1.kind)
    ensures Scan([a, o1, b]) == Done(Yard([o1], [a, b], 0, []))
  {
    ScanTwo(a, o1);
    ScanSnoc([a, o1], b, Yard([o1], [a], 0, []));
    StepOperandEq(Yard([o1], [a], 0, []), b);
    assert [a, o1] + [b] == [a, o1, b] && [a] + [b] == [a, b];
  }

  /** `a o1 b o2 c` with two binary operators: when `o1` binds at least as
      tightly as `o2` it is applied first, so equal precedences associate to
      the left, `^` included. */
  lemma LeftFirst(a: Token, o1: Token, b: Token, o2: Token, c: Token)
    requires IsOperandKind(a.kind) && IsOperandKind(b.kind) && IsOperandKind(c.kind)
    requires Binary(o1.kind) && Binary(o2.kind) && Prec(o1.kind) >= Prec(o2.kind)
    ensures Convert([a, o1, b, o2, c]) == Done(Postfix([a, b, o1, c, o2]))
  {
    ScanFiveLeft(a, o1, b, o2, c);
    ConvertClean([a, o1, b, o2, c], Yard([o2], [a, b, o1, c], 0, []));
    assert Reverse([o2]) == [o2];
    assert [a, b, o1, c] + [o2] == [a, b, o1, c, o2];
  }

  lemma ScanFourLeft(a: Token, o1: Token, b: Token, o2: Token)
    requires IsOperandKind(a.kind) && IsOperandKind(b.kind)
    requires Binary(o1.kind) && Binary(o2.kind) && Prec(o1.kind) >= Prec(o2.kind)
    ensures Scan([a, o1, b, o2]) == Done(Yard([o2], [a, b, o1], 0, []))
  {
    ScanThree(a, o1, b);
    ScanSnoc([a, o1, b], o2, Yard([o1], [a, b], 0, []));
    PopThenPush(o1, [a, b], 0, [], o2);
    assert [a, o1, b] + [o2] == [a, o1, b, o2] && [a, b] + [o1] == [a, b, o1];
  }

  lemma ScanFiveLeft(a: Token, o1: Token, b: Token, o2: Token, c: Token)
    requires IsOperandKind(a.kind) && IsOperandKind(b.kind) && IsOperandKind(c.kind)
    requires Binary(o1.kind) && Binary(o2.kind) && Prec(o1.kind) >= Prec(o2.kind)
    ensures Scan([a, o1, b, o2, c]) == Done(Yard([o2], [a, b, o1, c], 0, []))
  {
    ScanFourLeft(a, o1, b, o2);
    var y := Yard([o2], [a, b, o1], 0, []);
    ScanSnoc([a, o1, b, o2], c, y);
    StepOperandEq(y, c);
    assert [a, o1, b, o2] + [c] == [a, o1, b, o2, c] && [a, b, o1] + [c] == [a, b, o1, c];
  }

  /** `a o1 b o2 c` when `o2` binds more tightly than `o1`: `o2` is applied first. */
  lemma RightFirst(a: Token, o1: Token, b: Token, o2: Token, c: Token)
    requires IsOperandKind(a.kind) && IsOperandKind(b.kind) && IsOperandKind(c.kind)
    requires Binary(o1.kind) && Binary(o2.kind) && Prec(o1.kind) < Prec(o2.kind)
    ensures Convert([a, o1, b, o2, c]) == Done(Postfix([a, b, c, o2, o1]))
  {
    ScanFiveRight(a, o1, b, o2, c);
    ConvertClean([a, o1, b, o2, c], Yard([o1, o2], [a, b, c], 0, []));
    assert Reverse([o1, o2]) == [o2, o1];
    assert [a, b, c] + [o2, o1] == [a, b, c, o2, o1];
  }

  lemma ScanFiveRight(a: Token, o1: Token, b: Token, o2: Token, c: Token)
    requires IsOperandKind(a.kind) && IsOperandKind(b.kind) && IsOperandKind(c.kind)
    requires Binary(o1.kind) && Binary(o2.kind) && Prec(o1.kind) < Prec(o2.kind)
    ensures Scan([a, o1, b, o2, c]) == Done(Yard([o1, o2], [a, b, c], 0, []))
  {
    ScanFourRight(a, o1, b, o2);
    var y := Yard([o1, o2], [a, b], 0, []);
    ScanSnoc([a, o1, b, o2], c, y);
    StepOperandEq(y, c);
    assert [a, o1, b, o2] + [c] == [a, o1, b, o2, c] && [a, b] + [c] == [a, b, c];
  }

  lemma ScanFourRight(a: Token, o1: Token, b: Token, o2: Token)
    requires IsOperandKind(a.kind) && IsOperandKind(b.kind)
    requires Binary(o1.kind) && Binary(o2.kind) && Prec(o1.kind) < Prec(o2.kind)
    ensures Scan([a, o1, b, o2]) == Done(Yard([o1, o2], [a, b], 0, []))
  {
    var y := Yard([o1], [a, b], 0, []);
    ScanThree(a, o1, b);
    ScanSnoc([a, o1, b], o2, y);
    PushBinary(y, o2);
    assert [a, o1, b] + [o2] == [a, o1, b, o2] && [o1] + [o2] == [o1, o2];
  }

  /** `a o f(b)`: a function token pops the pending binary operator before it is
      pushed, so the operator lands in front of the function's argument. */
  lemma FunctionPopsPending(a: Token, o: Token, f: Token, l: Token, b: Token, r: Token)
    requires IsOperandKind(a.kind) && IsOperandKind(b.kind) && Binary(o.kind)
    requires f.kind == Function && l.kind == Open && r.kind == Close
    ensures Convert([a, o, f, l, b, r]) == Done(Postfix([a, o, b, f]))
  {
    ScanTwo(a, o);
    ScanSnoc([a, o], f, Yard([o], [a], 0, []));
    FunctionPops(o, [a], 0, [], f);
    assert [a, o] + [f] == [a, o, f] && [a] + [o] == [a, o];
    FunctionArgument(a, o, f, l, b, r);
  }

  lemma FunctionArgument(a: Token, o: Token, f: Token, l: Token, b: Token, r: Token)
    requires IsOperandKind(b.kind) && l.kind == Open && r.kind == Close
    requires Scan([a, o, f]) == Done(Yard([f], [a, o], 0, []))
    ensures Convert([a, o, f, l, b, r]) == Done(Postfix([a, o, b, f]))
  {
    var y := Yard([f], [a, o], 0, []);
    ScanSnoc([a, o, f], l, y);
    StepOpenEq(y, l);
    assert [a, o, f] + [l] == [a, o, f, l] && [f] + [l] == [f, l];
    var y' := Yard([f, l], [a, o], 1, []);
    ScanSnoc([a, o, f, l], b, y');
    StepOperandEq(y', b);
    assert [a, o, f, l] + [b] == [a, o, f, l, b] && [a, o] + [b] == [a, o, b];
    var y'' := Yard([f, l], [a, o, b], 1, []);
    ScanSnoc([a, o, f, l, b], r, y'');
    CloseAtOpen(f, l, [a, o, b], 1, [], r);
    assert [a, o, f, l, b] + [r] == [a, o, f, l, b, r];
    ConvertClean([a, o, f, l, b, r], Yard([f], [a, o, b], 0, []));
    assert Reverse([f]) == [f];
    assert [a, o, b] + [f] == [a, o, b, f];
  }

  /** A `)` with one operator between it and its `(`, which is the bottom of the stack. */
  lemma CloseOverOne(l: Token, top: Token, out: seq<Token>, n: int, e: seq<EvalError>, r: Token)
    requires l.kind == Open && top.kind != Open && r.kind == Close
    ensures Step(Yard([l, top], out, n, e), r) == Done(Yard([], out + [top], n - 1, e))
  {
    assert DropLast([l, top]) == [l] && Last([l, top]) == top;
    assert DropLast([l]) == [] && Last([l]) == l;
    assert PopToOpen([l], out + [top]) == Some(Popped([], out + [top]));
    assert PopToOpen([l, top], out) == Some(Popped([], out + [top]));
  }

  /** The state after a bracketed `( z m a )`: the bracket's postfix on the
      output and nothing pending. */
  lemma ScanGroup(l: Token, z: Token, m: Token, a: Token, r: Token)
    requires l.kind == Open && IsOperandKind(z.kind) && Binary(m.kind) && IsOperandKind(a.kind) && r.kind == Close
    ensures Scan([l, z, m, a, r]) == Done(Yard([], [z, a, m], 0, []))
  {
    ScanOpenOperandBinary(l, z, m);
    ScanGroupRest(l, z, m, a, r);
  }

  lemma ScanOpenOperandBinary(l: Token, z: Token, m: Token)
    requires l.kind == Open && IsOperandKind(z.kind) && Binary(m.kind)
    ensures Scan([l, z, m]) == Done(Yard([l, m], [z], 1, []))
  {
    ScanOpenOperand(l, z);
    var y2 := Yard([l], [z], 1, []);
    ScanSnoc([l, z], m, y2);
    PushBinary(y2, m);
    assert [l, z] + [m] == [l, z, m] && [l] + [m] == [l, m];
  }

  lemma ScanOpenOperand(l: Token, z: Token)
    requires l.kind == Open && IsOperandKind(z.kind)
    ensures Scan([l, z]) == Done(Yard([l], [z], 1, []))
  {
    ScanOpen(l);
    var y1 := Yard([l], [], 1, []);
    ScanSnoc([l], z, y1);
    StepOperandEq(y1, z);
    assert [l] + [z] == [l, z] && [] + [z] == [z];
  }

  lemma ScanOpen(l: Token)
    requires l.kind == Open
    ensures Scan([l]) == Done(Yard([l], [], 1, []))
  {
    var y0 := Yard([], [], 0, []);
    ScanSnoc([], l, y0);
    StepOpenEq(y0, l);
    assert [] + [l] == [l];
  }

  lemma ScanGroupRest(l: Token, z: Token, m: Token, a: Token, r: Token)
    requires l.kind == Open && IsOperandKind(a.kind) && m.kind != Open && r.kind == Close
    requires Scan([l, z, m]) == Done(Yard([l, m], [z], 1, []))
    ensures Scan([l, z, m, a, r]) == Done(Yard([], [z, a, m], 0, []))
  {
    ScanGroupOperand(l, z, m, a);
    var y4 := Yard([l, m], [z, a], 1, []);
    ScanSnoc([l, z, m, a], r, y4);
    CloseOverOne(l, m, [z, a], 1, [], r);
    assert [l, z, m, a] + [r] == [l, z, m, a, r] && [z, a] + [m] == [z, a, m];
  }

  lemma ScanGroupOperand(l: Token, z: Token, m: Token, a: Token)
    requires IsOperandKind(a.kind)
    requires Scan([l, z, m]) == Done(Yard([l, m], [z], 1, []))
    ensures Scan([l, z, m, a]) == Done(Yard([l, m], [z, a], 1, []))
  {
    var y3 := Yard([l, m], [z], 1, []);
    ScanSnoc([l, z, m], a, y3);
    StepOperandEq(y3, a);
    assert [l, z, m] + [a] == [l, z, m, a] && [z] + [a] == [z, a];
  }

  /** A bracketed binary operation converts to its postfix. */
  lemma GroupPostfix(l: Token, z: Token, m: Token, a: Token, r: Token)
    requires l.kind == Open && IsOperandKind(z.kind) && Binary(m.kind) && IsOperandKind(a.kind) && r.kind == Close
    ensures Convert([l, z, m, a, r]) == Done(Postfix([z, a, m]))
  {
    ScanGroup(l, z, m, a, r);
    ConvertClean([l, z, m, a, r], Yard([], [z, a, m], 0, []));
    assert [z, a, m] + Reverse([]) == [z, a, m];
  }

  /** A bracketed operation followed by `o b`: the bracket is complete before `o` arrives. */
  lemma GroupThenBinary(l: Token, z: Token, m: Token, a: Token, r: Token, o: Token, b: Token)
    requires l.kind == Open && IsOperandKind(z.kind) && Binary(m.kind) && IsOperandKind(a.kind) && r.kind == Close
    requires Binary(o.kind) && IsOperandKind(b.kind)
    ensures Convert([l, z, m, a, r, o, b]) == Done(Postfix([z, a, m, b, o]))
  {
    var g := [l, z, m, a, r];
    ScanGroup(l, z, m, a, r);
    var y5 := Yard([], [z, a, m], 0, []);
    ScanSnoc(g, o, y5);
    PushBinary(y5, o);
    assert g + [o] == [l, z, m, a, r, o] && [] + [o] == [o];
    var y6 := Yard([o], [z, a, m], 0, []);
    ScanSnoc(g + [o], b, y6);
    StepOperandEq(y6, b);
    assert g + [o] + [b] == [l, z, m, a, r, o, b];
    ConvertClean([l, z, m, a, r, o, b], Yard([o], [z, a, m] + [b], 0, []));
    assert Reverse([o]) == [o];
    assert [z, a, m] + [b] + [o] == [z, a, m, b, o];
  }
}
