/** The token model of calc.py: token kinds, lexical errors, the constant and
    function tables, and the (ASCII) character classes the lexer consults. */
module Tokens {
  import opened Wrappers

  /** The `Token.TYPE_*` kinds. `NoKind` is `TYPE_NONE`: the lexer never produces
      it, and precedence lookup treats it like an empty operator stack. */
  datatype Kind =
    | Bad | NoKind | Identifier | Const | Number
    | Add | Sub | Mul | Div | Exp
    | Open | Close | Function

  /** The `TokenError` kinds, each with the data its message mentions. */
  datatype TokenError =
    | UnknownChar(c: char)
    | UnknownIdentifier(name: string)
    | DecimalPointCount

  /** A token: its kind, the text it was built from, the offset of its first
      character in the input (-1 for tokens the pipeline synthesises), and a
      lexical error. */
  datatype Token = Token(kind: Kind, lexeme: string, charIndex: int, error: Option<TokenError>)

  /** The error object is present exactly on `Bad` tokens. */
  predicate WellFormed(t: Token) {
    t.error.Some? <==> t.kind == Bad
  }

  /** Offset carried by tokens that do not come from the input. */
  const Synthetic: int := -1

  /** The three tokens the unary-minus rewrite inserts. */
  const OpenTok: Token := Token(Open, "(", Synthetic, None)
  const CloseTok: Token := Token(Close, ")", Synthetic, None)
  const ZeroTok: Token := Token(Number, "0", Synthetic, None)

  /** Operand kinds: the converter copies them straight to its output, and a
      unary minus is rewritten only in front of one of them. */
  predicate IsOperandKind(k: Kind) {
    k == Identifier || k == Const || k == Number
  }

  /** `is_operator`: the binary operators and functions. */
  predicate IsOperator(k: Kind) {
    k == Add || k == Sub || k == Mul || k == Div || k == Exp || k == Function
  }

  /** The binary operators: every operator but a function. */
  predicate Binary(k: Kind) {
    IsOperator(k) && k != Function
  }

  /** `KNOWN_CONSTS`, each value already rendered as Python's `str(float)`. */
  const KnownConsts: map<string, string> := map[
    "pi" := "3.141592653589793",
    "e" := "2.718281828459045",
    "deg2rad" := "0.017453292519943295",
    "rad2deg" := "57.29577951308232"
  ]

  /** The names of `KNOWN_FUNCTIONS`. */
  const KnownFunctions: set<string> := {
    "sqrt", "log10", "log2", "cos", "sin", "tan",
    "cosec", "sec", "cot", "acos", "asin", "atan"
  }

  /** `str.isspace` on ASCII: tab through carriage return, the four
      separator controls 0x1C-0x1F, and the space. */
  predicate IsSpace(c: char) {
    (9 <= c as int <= 13) || (28 <= c as int <= 32)
  }

  predicate IsDigit(c: char) {
    '0' <= c <= '9'
  }

  predicate IsAlpha(c: char) {
    ('a' <= c <= 'z') || ('A' <= c <= 'Z')
  }

  /** `str.isprintable` on ASCII. */
  predicate IsPrintable(c: char) {
    32 <= c as int < 127
  }

  /** A character that may start or continue a number: a digit or a point. */
  predicate IsNumberChar(c: char) {
    IsDigit(c) || c == '.'
  }

  /** A character that may start an identifier. */
  predicate IsWordStart(c: char) {
    IsAlpha(c) || c == '_'
  }

  /** A character that may continue an identifier (`isalnum` or `_`). */
  predicate IsWordChar(c: char) {
    IsAlpha(c) || IsDigit(c) || c == '_'
  }

  /** The kind of a one-character operator or bracket token, if `c` is one. */
  function SymbolKind(c: char): Option<Kind> {
    match c
    case '+' => Some(Add)
    case '-' => Some(Sub)
    case '*' => Some(Mul)
    case '/' => Some(Div)
    case '^' => Some(Exp)
    case '(' => Some(Open)
    case ')' => Some(Close)
    case _ => None
  }

  /** `str.lower` on ASCII. */
  function Lower(s: string): (r: string)
    ensures |r| == |s|
  {
    if |s| == 0 then []
    else [if 'A' <= s[0] <= 'Z' then (s[0] as int + 32) as char else s[0]] + Lower(s[1..])
  }
}
