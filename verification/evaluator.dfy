/** The postfix evaluation of `eval_lex_tokens`: number parsing, the operand
    stack, the function table, and the errors that stop or do not stop the run. */
module Evaluator {
  import opened Wrappers
  import opened Tokens
  import opened Diagnostics
  import opened Lexer

  // ---------------------------------------------------------------------------
  // Reading a number lexeme (`decimal.Decimal(lexeme)`)
  // ---------------------------------------------------------------------------

  predicate AllDigits(x: string) {
    forall k :: 0 <= k < |x| ==> IsDigit(x[k])
  }

  predicate HasDigit(x: string) {
    exists k :: 0 <= k < |x| && IsDigit(x[k])
  }

  /** The value of a string of decimal digits (0 for the empty string). */
  function DigitsValue(x: string): nat
    requires AllDigits(x)
  {
    if |x| == 0 then 0 else DigitsValue(DropLast(x)) * 10 + (Last(x) as int - '0' as int)
  }

  function Pow10(n: nat): (r: nat)
    ensures r > 0
  {
    if n == 0 then 1 else 10 * Pow10(n - 1)
  }

  /** Index of the first `.` in `x`, or `|x|` when there is none. */
  function PointIndex(x: string): (i: nat)
    ensures i <= |x|
    ensures i < |x| ==> x[i] == '.'
  {
    if |x| == 0 then 0 else if x[0] == '.' then 0 else 1 + PointIndex(x[1..])
  }

  /** No point comes before `PointIndex(x)`. */
  lemma {:induction false} PointIndexFirst(x: string)
    ensures forall k :: 0 <= k < PointIndex(x) ==> x[k] != '.'
  {
    if |x| > 0 && x[0] != '.' {
      PointIndexFirst(x[1..]);
      assert forall k :: 1 <= k < |x| ==> x[k] == x[1..][k - 1];
    }
  }

  lemma {:induction false} NoPointDigits(x: string)
    requires AllNumberChars(x) && DotCount(x) == 0
    ensures AllDigits(x)
  {
    if |x| > 0 {
      NoPointDigits(x[1..]);
      assert forall k :: 1 <= k < |x| ==> x[k] == x[1..][k - 1];
    }
  }

  /** The points of `x` on either side of position `i`. */
  lemma DotCountAround(x: string, i: nat)
    requires i < |x|
    ensures DotCount(x) == DotCount(x[..i]) + (if x[i] == '.' then 1 else 0) + DotCount(x[i + 1..])
  {
    assert x == x[..i] + x[i..];
    DotCountAppend(x[..i], x[i..]);
    DotCountSlice(x, i, |x|);
    assert x[i..|x|] == x[i..] && x[i + 1..|x|] == x[i + 1..];
  }

  /** Around its one point, a number lexeme is digits on both sides. */
  lemma PointSplit(x: string)
    requires AllNumberChars(x) && DotCount(x) == 1
    ensures PointIndex(x) < |x|
    ensures AllDigits(x[..PointIndex(x)]) && AllDigits(x[PointIndex(x) + 1..])
  {
    var i := PointIndex(x);
    assert i < |x| by {
      if i == |x| {
        PointIndexFirst(x);
        NoPointCount(x);
      }
    }
    DotCountAround(x, i);
    assert AllNumberChars(x[i + 1..]);
    NoPointDigits(x[i + 1..]);
    assert forall k :: 0 <= k < i ==> x[..i][k] == x[k];
  }

  lemma {:induction false} NoPointCount(x: string)
    requires forall k :: 0 <= k < |x| ==> x[k] != '.'
    ensures DotCount(x) == 0
  {
    if |x| > 0 {
      NoPointCount(x[1..]);
    }
  }

  /** The value of the digits after a point: `25` stands for 0.25. */
  function FractionValue(f: string): real
    requires AllDigits(f)
  {
    DigitsValue(f) as real / Pow10(|f|) as real
  }

  /** `decimal.Decimal(lexeme)` on the lexemes a `Number` token can carry:
      digits with at most one point and at least one digit (`5`, `5.`, `.5`,
      `2.25`). Anything else, the lone point `.` among them, raises. */
  function ParseDecimal(x: string): Option<real> {
    if !AllNumberChars(x) || DotCount(x) > 1 || !HasDigit(x) then None
    else if DotCount(x) == 0 then
      NoPointDigits(x);
      Some(DigitsValue(x) as real)
    else
      PointSplit(x);
      var i := PointIndex(x);
      Some(DigitsValue(x[..i]) as real + FractionValue(x[i + 1..]))
  }

  lemma {:induction false} NatToStringDigits(n: nat)
    ensures AllDigits(NatToString(n))
    ensures DigitsValue(NatToString(n)) == n
    decreases n
  {
    var r := NatToString(n);
    if n >= 10 {
      NatToStringDigits(n / 10);
      assert DropLast(r) == NatToString(n / 10);
    } else {
      assert DropLast(r) == [];
    }
  }

  /** A natural number printed in decimal reads back as itself. */
  lemma ParseNatToString(n: nat)
    ensures ParseDecimal(NatToString(n)) == Some(n as real)
  {
    var r := NatToString(n);
    NatToStringDigits(n);
    assert IsDigit(r[0]);
    assert AllNumberChars(r);
    NoPointCount(r);
  }

  /** A point splits a lexeme into whole and fractional digits. */
  lemma ParseFraction(a: string, b: string)
    requires AllDigits(a) && AllDigits(b) && |a| + |b| > 0
    ensures ParseDecimal(a + "." + b) == Some(DigitsValue(a) as real + FractionValue(b))
  {
    FractionShape(a, b);
    FractionParts(a, b);
    ParseAt(a + "." + b, a, b);
  }

  /** `ParseOnePoint` with the digits on either side of the point given. */
  lemma ParseAt(x: string, a: string, b: string)
    requires AllNumberChars(x) && DotCount(x) == 1 && HasDigit(x)
    requires PointIndex(x) == |a| && |a| < |x| && x[..|a|] == a && x[|a| + 1..] == b
    ensures AllDigits(a) && AllDigits(b)
    ensures ParseDecimal(x) == Some(DigitsValue(a) as real + FractionValue(b))
  {
    ParseOnePoint(x);
  }

  lemma ParseOnePoint(x: string)
    requires AllNumberChars(x) && DotCount(x) == 1 && HasDigit(x)
    ensures PointIndex(x) < |x| && AllDigits(x[..PointIndex(x)]) && AllDigits(x[PointIndex(x) + 1..])
    ensures ParseDecimal(x) == Some(DigitsValue(x[..PointIndex(x)]) as real + FractionValue(x[PointIndex(x) + 1..]))
  {
    PointSplit(x);
  }

  lemma FractionParts(a: string, b: string)
    requires AllDigits(a)
    ensures PointIndex(a + "." + b) == |a|
    ensures (a + "." + b)[..|a|] == a && (a + "." + b)[|a| + 1..] == b
  {
    var x := a + "." + b;
    assert x[|a|] == '.';
    assert forall k :: 0 <= k < |a| ==> x[k] == a[k];
    PointIndexAt(x, |a|);
  }

  lemma {:induction false} PointIndexAt(x: string, i: nat)
    requires i < |x| && x[i] == '.' && forall k :: 0 <= k < i ==> x[k] != '.'
    ensures PointIndex(x) == i
  {
    if i > 0 {
      assert x[0] != '.';
      PointIndexAt(x[1..], i - 1);
    }
  }

  lemma FractionShape(a: string, b: string)
    requires AllDigits(a) && AllDigits(b) && |a| + |b| > 0
    ensures AllNumberChars(a + "." + b) && DotCount(a + "." + b) == 1 && HasDigit(a + "." + b)
  {
    var x := a + "." + b;
    NoPointCount(a);
    NoPointCount(b);
    DotCountAround(x, |a|);
    assert x[..|a|] == a && x[|a| + 1..] == b;
    if |a| > 0 {
      assert IsDigit(x[0]);
    } else {
      assert IsDigit(x[1]);
    }
  }

  lemma {:induction false} AllPointsCount(x: string)
    requires forall k :: 0 <= k < |x| ==> x[k] == '.'
    ensures DotCount(x) == |x|
  {
    if |x| > 0 {
      AllPointsCount(x[1..]);
    }
  }

  /** On a well-shaped number lexeme, reading fails exactly for the lone point. */
  lemma ParseFailsOnlyOnPoint(x: string)
    requires NumberShape(x)
    ensures ParseDecimal(x).None? <==> x == "."
  {
    if !HasDigit(x) {
      assert forall k :: 0 <= k < |x| ==> x[k] == '.';
      AllPointsCount(x);
      assert x == [x[0]];
    }
    if x == "." {
      assert !IsDigit(x[0]);
    }
  }

  // ---------------------------------------------------------------------------
  // The function table
  // ---------------------------------------------------------------------------

  /** What the floating-point library function returns for an argument: a
      value, a domain error (ValueError or ZeroDivisionError), or some other
      exception. The library itself is a parameter of the model. */
  datatype MathResult = MathValue(v: real) | MathDomainError | MathOtherError

  /** The outcome of `KNOWN_FUNCTIONS[name.lower()](a)`. */
  datatype Called = Returned(v: real) | Failed(fault: FunctionFault)

  /** Look the lower-cased name up in the table, then apply the library
      function `apply` stands for. */
  function CallFunction(apply: (string, real) -> MathResult, name: string, a: real): (r: Called)
    ensures Lower(name) !in KnownFunctions ==> r == Failed(UnknownFunction(Lower(name)))
    ensures Lower(name) in KnownFunctions ==>
              (r.Returned? <==> apply(Lower(name), a).MathValue?)
    ensures r.Returned? ==> apply(Lower(name), a) == MathValue(r.v)
    ensures Lower(name) in KnownFunctions && apply(Lower(name), a).MathDomainError? ==> r == Failed(DomainFault)
    ensures Lower(name) in KnownFunctions && apply(Lower(name), a).MathOtherError? ==> r == Failed(OtherFault)
  {
    var key := Lower(name);
    if key !in KnownFunctions then Failed(UnknownFunction(key))
    else match apply(key, a)
      case MathValue(v) => Returned(v)
      case MathDomainError => Failed(DomainFault)
      case MathOtherError => Failed(OtherFault)
  }

  // ---------------------------------------------------------------------------
  // The evaluation loop
  // ---------------------------------------------------------------------------

  /** The operand stack (top last) and the errors recorded so far. */
  datatype Machine = Machine(stack: seq<real>, errs: seq<EvalError>)

  /** After a token: carry on with the next one, or leave the loop (`break`). */
  datatype Flow = Continue(machine: Machine) | Stop(machine: Machine)

  /** Value of a binary operator on its left and right operands (`a + b`,
      `b - a`, `a * b`, `b / a` and `math.pow(b, a)` with `a` popped first);
      `None` when it fails (division by zero, a failing power). */
  function Combine(k: Kind, x: real, y: real, power: (real, real) -> Option<real>): Option<real> {
    match k
    case Add => Some(x + y)
    case Sub => Some(x - y)
    case Mul => Some(x * y)
    case Div => if y == 0.0 then None else Some(x / y)
    case _ => power(x, y)
  }

  /** One token of the loop. A number is read and pushed; an operator pops its
      operands and pushes its result, or records an error; any other token is
      passed over. Exponentiation failures are recorded without leaving the
      loop; all other errors leave it. */
  function Exec(m: Machine, t: Token, apply: (string, real) -> MathResult,
                power: (real, real) -> Option<real>): Stage<Flow>
  {
    if t.kind == Number then
      match ParseDecimal(t.lexeme)
      case None => Crashed(BadDecimal(t.lexeme))
      case Some(v) => Done(Continue(m.(stack := m.stack + [v])))
    else if !IsOperator(t.kind) then Done(Continue(m))
    else if |m.stack| < 1 then Done(Stop(m.(errs := m.errs + [TooManyOperators(0)])))
    else
      var a, s1 := Last(m.stack), DropLast(m.stack);
      if t.kind == Function then
        match CallFunction(apply, t.lexeme, a)
        case Returned(v) => Done(Continue(m.(stack := s1 + [v])))
        case Failed(f) => Done(Stop(Machine(s1, m.errs + [FunctionFailure(t.charIndex, f)])))
      else if |s1| < 1 then Done(Stop(Machine(s1, m.errs + [TooManyOperators(1)])))
      else
        var b, s2 := Last(s1), DropLast(s1);
        if t.kind == Div && a == 0.0 then Done(Stop(Machine(s2, m.errs + [DivisionByZero(t.charIndex)])))
        else
          match Combine(t.kind, b, a, power)
          case Some(v) => Done(Continue(Machine(s2 + [v], m.errs)))
          case None => Done(Continue(Machine(s2, m.errs + [PowerFailure(t.charIndex, b, a)])))
  }

  /** The loop over a postfix list, left to right, until its end or a `break`. */
  function Run(m: Machine, ts: seq<Token>, apply: (string, real) -> MathResult,
               power: (real, real) -> Option<real>): (r: Stage<Flow>)
    ensures r.Crashed? ==> exists k :: 0 <= k < |ts| && ts[k].kind == Number
                             && ParseDecimal(ts[k].lexeme).None? && r.reason == BadDecimal(ts[k].lexeme)
    decreases |ts|
  {
    if |ts| == 0 then Done(Continue(m))
    else
      match Exec(m, ts[0], apply, power)
      case Crashed(why) => Crashed(why)
      case Done(Stop(m')) => Done(Stop(m'))
      case Done(Continue(m')) =>
        var r := Run(m', ts[1..], apply, power);
        assert r.Crashed? ==> exists k :: 1 <= k < |ts| && ts[k] == ts[1..][k - 1] && ts[k].kind == Number
                                && ParseDecimal(ts[k].lexeme).None? && r.reason == BadDecimal(ts[k].lexeme);
        r
  }

  /** After the loop: more than one value left is an error; any error rejects
      the input; otherwise the single value is the result, and reading it from
      an empty stack raises. */
  function Finish(m: Machine): Outcome {
    var errs := if |m.stack| > 1 then m.errs + [TooFewOperators(|m.stack|)] else m.errs;
    if |errs| > 0 then Errors(errs)
    else if |m.stack| == 0 then Crash(EmptyResult)
    else Value(m.stack[0])
  }

  /** Evaluation of a postfix list from an empty stack. */
  function EvalPostfix(ts: seq<Token>, apply: (string, real) -> MathResult,
                       power: (real, real) -> Option<real>): (r: Outcome)
    ensures r.Crash? ==> || r.reason == EmptyResult
                         || exists k :: 0 <= k < |ts| && ts[k].kind == Number
                              && ParseDecimal(ts[k].lexeme).None? && r.reason == BadDecimal(ts[k].lexeme)
  {
    match Run(Machine([], []), ts, apply, power)
    case Crashed(why) => Crash(why)
    case Done(flow) => Finish(flow.machine)
  }

  /** Running two lists back to back is running the second from where the
      first left off, unless the first stopped or crashed. */
  lemma {:induction false} RunAppend(m: Machine, a: seq<Token>, b: seq<Token>,
                                     apply: (string, real) -> MathResult, power: (real, real) -> Option<real>)
    ensures Run(m, a + b, apply, power) ==
              match Run(m, a, apply, power)
              case Done(Continue(m')) => Run(m', b, apply, power)
              case other => other
    decreases |a|
  {
    if |a| == 0 {
      assert a + b == b;
    } else {
      assert (a + b)[0] == a[0] && (a + b)[1..] == a[1..] + b;
      match Exec(m, a[0], apply, power)
      case Crashed(_) =>
      case Done(Stop(_)) =>
      case Done(Continue(m')) =>
        RunAppend(m', a[1..], b, apply, power);
    }
  }

  lemma RunOne(m: Machine, t: Token, apply: (string, real) -> MathResult, power: (real, real) -> Option<real>)
    ensures Run(m, [t], apply, power) == Exec(m, t, apply, power)
  {
    assert [t][1..] == [];
  }

  // ---------------------------------------------------------------------------
  // Reference semantics: expression trees
  // ---------------------------------------------------------------------------

  /** An arithmetic expression as a tree of tokens. */
  datatype Expr =
    | Leaf(num: Token)
    | Node(op: Token, left: Expr, right: Expr)
    | Call(fn: Token, arg: Expr)

  /** Leaves are numbers, inner nodes binary operators, calls functions. */
  predicate Built(e: Expr) {
    match e
    case Leaf(t) => t.kind == Number
    case Node(op, l, r) => Binary(op.kind) && Built(l) && Built(r)
    case Call(f, x) => f.kind == Function && Built(x)
  }

  /** The postfix list of a tree: operands first, then the operator. */
  function Flatten(e: Expr): seq<Token> {
    match e
    case Leaf(t) => [t]
    case Node(op, l, r) => Flatten(l) + Flatten(r) + [op]
    case Call(f, x) => Flatten(x) + [f]
  }

  /** The value of a tree read the usual way, or `None` if any part fails. */
  function Denote(e: Expr, apply: (string, real) -> MathResult, power: (real, real) -> Option<real>): Option<real> {
    match e
    case Leaf(t) => ParseDecimal(t.lexeme)
    case Node(op, l, r) =>
      (match (Denote(l, apply, power), Denote(r, apply, power))
       case (Some(x), Some(y)) => Combine(op.kind, x, y, power)
       case _ => None)
    case Call(f, x) =>
      (match Denote(x, apply, power)
       case Some(a) =>
         (match CallFunction(apply, f.lexeme, a) case Returned(v) => Some(v) case Failed(_) => None)
       case None => None)
  }

  /** The stack machine agrees with the tree: running the postfix list of a tree
      that has a value pushes exactly that value and leaves everything else as
      it was. */
  lemma {:induction false} RunTree(e: Expr, m: Machine, apply: (string, real) -> MathResult,
                                   power: (real, real) -> Option<real>)
    requires Built(e) && Denote(e, apply, power).Some?
    ensures Run(m, Flatten(e), apply, power) ==
              Done(Continue(Machine(m.stack + [Denote(e, apply, power).value], m.errs)))
    decreases e
  {
    match e
    case Leaf(t) =>
      RunOne(m, t, apply, power);
    case Node(op, l, r) =>
      var x, y := Denote(l, apply, power).value, Denote(r, apply, power).value;
      RunTree(l, m, apply, power);
      RunTree(r, Machine(m.stack + [x], m.errs), apply, power);
      RunOperands(op, l, r, m, x, y, apply, power);
      RunNodeTop(op, m.stack, x, y, m.errs, apply, power);
    case Call(f, arg) =>
      var a := Denote(arg, apply, power).value;
      RunTree(arg, m, apply, power);
      RunAppend(m, Flatten(arg), [f], apply, power);
      RunCallTop(f, m.stack, a, m.errs, apply, power);
  }

  /** After both operand trees ran, the operator sees their values on top. */
  lemma RunOperands(op: Token, l: Expr, r: Expr, m: Machine, x: real, y: real,
                    apply: (string, real) -> MathResult, power: (real, real) -> Option<real>)
    requires Run(m, Flatten(l), apply, power) == Done(Continue(Machine(m.stack + [x], m.errs)))
    requires Run(Machine(m.stack + [x], m.errs), Flatten(r), apply, power)
             == Done(Continue(Machine(m.stack + [x] + [y], m.errs)))
    ensures Run(m, Flatten(Node(op, l, r)), apply, power)
            == Exec(Machine(m.stack + [x] + [y], m.errs), op, apply, power)
  {
    RunAppend(m, Flatten(l), Flatten(r), apply, power);
    RunAppend(m, Flatten(l) + Flatten(r), [op], apply, power);
    RunOne(Machine(m.stack + [x] + [y], m.errs), op, apply, power);
  }

  /** A binary operator on top of two values. */
  lemma RunNodeTop(op: Token, st: seq<real>, x: real, y: real, errs: seq<EvalError>,
                   apply: (string, real) -> MathResult, power: (real, real) -> Option<real>)
    requires Binary(op.kind)
    ensures Combine(op.kind, x, y, power).Some? ==>
              Exec(Machine(st + [x] + [y], errs), op, apply, power)
              == Done(Continue(Machine(st + [Combine(op.kind, x, y, power).value], errs)))
    ensures op.kind == Div && y == 0.0 ==>
              Exec(Machine(st + [x] + [y], errs), op, apply, power)
              == Done(Stop(Machine(st, errs + [DivisionByZero(op.charIndex)])))
    ensures op.kind == Exp && power(x, y).None? ==>
              Exec(Machine(st + [x] + [y], errs), op, apply, power)
              == Done(Continue(Machine(st, errs + [PowerFailure(op.charIndex, x, y)])))
  {
    var s2 := st + [x] + [y];
    assert DropLast(s2) == st + [x] && DropLast(DropLast(s2)) == st;

  }

  /** A function on top of a value. */
  lemma RunCallTop(f: Token, st: seq<real>, a: real, errs: seq<EvalError>,
                   apply: (string, real) -> MathResult, power: (real, real) -> Option<real>)
    requires f.kind == Function
    ensures Run(Machine(st + [a], errs), [f], apply, power) ==
              match CallFunction(apply, f.lexeme, a)
              case Returned(v) => Done(Continue(Machine(st + [v], errs)))
              case Failed(fault) => Done(Stop(Machine(st, errs + [FunctionFailure(f.charIndex, fault)])))
  {
    RunOne(Machine(st + [a], errs), f, apply, power);
    assert DropLast(st + [a]) == st;
  }

  /** A whole tree with a value evaluates to that value. */
  lemma EvalTree(e: Expr, apply: (string, real) -> MathResult, power: (real, real) -> Option<real>)
    requires Built(e) && Denote(e, apply, power).Some?
    ensures EvalPostfix(Flatten(e), apply, power) == Value(Denote(e, apply, power).value)
  {
    RunTree(e, Machine([], []), apply, power);
  }

  /** Dividing by a zero-valued subtree leaves the loop with the division's
      offset, after both operands were popped. */
  lemma DivisionByZeroStops(op: Token, l: Expr, r: Expr, m: Machine,
                            apply: (string, real) -> MathResult, power: (real, real) -> Option<real>)
    requires op.kind == Div && Built(l) && Built(r)
    requires Denote(l, apply, power).Some? && Denote(r, apply, power) == Some(0.0)
    ensures Run(m, Flatten(Node(op, l, r)), apply, power) ==
              Done(Stop(Machine(m.stack, m.errs + [DivisionByZero(op.charIndex)])))
  {
    var x := Denote(l, apply, power).value;
    RunTree(l, m, apply, power);
    RunTree(r, Machine(m.stack + [x], m.errs), apply, power);
    RunOperands(op, l, r, m, x, 0.0, apply, power);
    RunNodeTop(op, m.stack, x, 0.0, m.errs, apply, power);
  }

  /** A failing power pops both operands, pushes nothing, records the failure
      with both operands, and the loop carries on. */
  lemma PowerFailureContinues(op: Token, l: Expr, r: Expr, m: Machine,
                              apply: (string, real) -> MathResult, power: (real, real) -> Option<real>)
    requires op.kind == Exp && Built(l) && Built(r)
    requires Denote(l, apply, power).Some? && Denote(r, apply, power).Some?
    requires power(Denote(l, apply, power).value, Denote(r, apply, power).value).None?
    ensures Run(m, Flatten(Node(op, l, r)), apply, power) ==
              Done(Continue(Machine(m.stack, m.errs + [PowerFailure(op.charIndex, Denote(l, apply, power).value,
                                                                   Denote(r, apply, power).value)])))
  {
    var x, y := Denote(l, apply, power).value, Denote(r, apply, power).value;
    RunTree(l, m, apply, power);
    RunTree(r, Machine(m.stack + [x], m.errs), apply, power);
    RunOperands(op, l, r, m, x, y, apply, power);
    RunNodeTop(op, m.stack, x, y, m.errs, apply, power);
  }

  /** A failing function pops its argument and leaves the loop. */
  lemma FunctionFailureStops(f: Token, arg: Expr, m: Machine,
                             apply: (string, real) -> MathResult, power: (real, real) -> Option<real>)
    requires f.kind == Function && Built(arg) && Denote(arg, apply, power).Some?
    requires CallFunction(apply, f.lexeme, Denote(arg, apply, power).value).Failed?
    ensures Run(m, Flatten(Call(f, arg)), apply, power) ==
              Done(Stop(Machine(m.stack, m.errs + [FunctionFailure(f.charIndex,
                CallFunction(apply, f.lexeme, Denote(arg, apply, power).value).fault)])))
  {
    var a := Denote(arg, apply, power).value;
    RunTree(arg, m, apply, power);
    RunAppend(m, Flatten(arg), [f], apply, power);
    RunCallTop(f, m.stack, a, m.errs, apply, power);
  }

  /** Two complete operands and no operator between them: the count is reported. */
  lemma TwoValuesLeft(e1: Expr, e2: Expr, apply: (string, real) -> MathResult, power: (real, real) -> Option<real>)
    requires Built(e1) && Built(e2) && Denote(e1, apply, power).Some? && Denote(e2, apply, power).Some?
    ensures EvalPostfix(Flatten(e1) + Flatten(e2), apply, power) == Errors([TooFewOperators(2)])
  {
    var x, y := Denote(e1, apply, power).value, Denote(e2, apply, power).value;
    RunTree(e1, Machine([], []), apply, power);
    RunTree(e2, Machine([x], []), apply, power);
    RunAppend(Machine([], []), Flatten(e1), Flatten(e2), apply, power);
    assert [] + [x] == [x];
    assert Finish(Machine([x, y], [])) == Errors([TooFewOperators(2)]);
  }

  /** A binary operator with a single operand available: the second pop fails
      and the rest of the list is never read. */
  lemma OneOperandShort(e: Expr, op: Token, rest: seq<Token>,
                        apply: (string, real) -> MathResult, power: (real, real) -> Option<real>)
    requires Built(e) && Denote(e, apply, power).Some? && Binary(op.kind)
    ensures EvalPostfix(Flatten(e) + [op] + rest, apply, power) == Errors([TooManyOperators(1)])
  {
    var x := Denote(e, apply, power).value;
    RunTree(e, Machine([], []), apply, power);
    assert Flatten(e) + [op] + rest == Flatten(e) + ([op] + rest);
    RunAppend(Machine([], []), Flatten(e), [op] + rest, apply, power);
    RunAppend(Machine([x], []), [op], rest, apply, power);
    RunOne(Machine([x], []), op, apply, power);
  }

  /** An operator with nothing on the stack: the first pop fails. */
  lemma NoOperand(op: Token, rest: seq<Token>, apply: (string, real) -> MathResult, power: (real, real) -> Option<real>)
    requires IsOperator(op.kind)
    ensures EvalPostfix([op] + rest, apply, power) == Errors([TooManyOperators(0)])
  {
    RunAppend(Machine([], []), [op], rest, apply, power);
    RunOne(Machine([], []), op, apply, power);
  }

  /** Nothing to evaluate: reading the result from the empty stack raises. */
  lemma EmptyRaises(apply: (string, real) -> MathResult, power: (real, real) -> Option<real>)
    ensures EvalPostfix([], apply, power) == Crash(EmptyResult)
  {
  }

  /** A lone point as a number raises when it is reached. */
  lemma LonePointRaises(t: Token, rest: seq<Token>, apply: (string, real) -> MathResult, power: (real, real) -> Option<real>)
    requires t.kind == Number && t.lexeme == "."
    ensures EvalPostfix([t] + rest, apply, power) == Crash(BadDecimal("."))
  {
    RunAppend(Machine([], []), [t], rest, apply, power);
    RunOne(Machine([], []), t, apply, power);
    assert !HasDigit(".");
  }

  /** Tokens that are neither numbers nor operators (identifiers, brackets) are
      passed over. */
  lemma OthersIgnored(m: Machine, t: Token, apply: (string, real) -> MathResult, power: (real, real) -> Option<real>)
    requires t.kind != Number && !IsOperator(t.kind)
    ensures Run(m, [t], apply, power) == Done(Continue(m))
  {
    RunOne(m, t, apply, power);
  }
}
