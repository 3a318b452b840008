/** How a run of the calculator can end: a value, a list of reported errors,
    or an uncaught Python exception (a crash). */
module Diagnostics {

  /** The uncaught exceptions of `eval_lex_tokens`. */
  datatype CrashReason =
      /** `KNOWN_CONSTS[...]` on a `Const` token whose name is not a constant (KeyError). */
    | UnknownConstant(name: string)
      /** `operators_stack[-1]` on an empty operator stack at a `)` (IndexError). */
    | UnmatchedClose(charIndex: int)
      /** `decimal.Decimal(lexeme)` on a lexeme that is not a number, such as `.` (InvalidOperation). */
    | BadDecimal(lexeme: string)
      /** `numbers_stack[0]` when no error was recorded but no value is left (IndexError). */
    | EmptyResult

  /** The result of one stage: its value, or the crash that ended the run. */
  datatype Stage<T> = Done(value: T) | Crashed(reason: CrashReason)

  /** Why applying a named function failed. */
  datatype FunctionFault =
      /** ZeroDivisionError or ValueError: reported as a math domain error. */
    | DomainFault
      /** The lower-cased name is not in the function table (a KeyError, caught). */
    | UnknownFunction(name: string)
      /** Any other exception, reported with its own message. */
    | OtherFault

  /** The errors `eval_lex_tokens` records, as structured values; `charIndex`
      is the token's offset (the messages print it plus one). */
  datatype EvalError =
      /** A token the converter does not recognise (`Bad` or `None` kind). */
    | BadToken(charIndex: int)
      /** Brackets left open at the end, with their number. */
    | UnclosedBrackets(count: nat)
      /** An operator found the operand stack empty; `pop` is 0 for the first
          operand and 1 for the second, as the message prefix says. */
    | TooManyOperators(pop: nat)
    | FunctionFailure(charIndex: int, fault: FunctionFault)
    | DivisionByZero(charIndex: int)
    | PowerFailure(charIndex: int, base: real, exponent: real)
      /** More than one value left on the operand stack, with their number. */
    | TooFewOperators(count: nat)

  /** What `eval_lex_tokens` returns, or the crash that ends it. */
  datatype Outcome = Value(v: real) | Errors(errs: seq<EvalError>) | Crash(reason: CrashReason)
}
