/** The lexer of calc.py (`lex`) and its two error-reporting helpers
    (`get_lex_error_count`, `print_lex_errors`). */
module Lexer {
  import opened Wrappers
  import opened Tokens

  // ---------------------------------------------------------------------------
  // Lexeme shapes
  // ---------------------------------------------------------------------------

  /** Number of `.` characters in `x`. */
  function DotCount(x: string): nat {
    if |x| == 0 then 0 else (if x[0] == '.' then 1 else 0) + DotCount(x[1..])
  }

  predicate AllNumberChars(x: string) {
    forall k :: 0 <= k < |x| ==> IsNumberChar(x[k])
  }

  /** The shape of a `Number` lexeme: non-empty, digits and points only, at most one point. */
  predicate NumberShape(x: string) {
    |x| > 0 && AllNumberChars(x) && DotCount(x) <= 1
  }

  lemma DotCountAppend(x: string, y: string)
    ensures DotCount(x + y) == DotCount(x) + DotCount(y)
  {
    if |x| > 0 {
      assert (x + y)[0] == x[0];
      assert (x + y)[1..] == x[1..] + y;
      DotCountAppend(x[1..], y);
    } else {
      assert x + y == y;
    }
  }

  lemma DotCountSlice(s: string, j: nat, e: nat)
    requires j < e <= |s|
    ensures DotCount(s[j..e]) == (if s[j] == '.' then 1 else 0) + DotCount(s[j + 1..e])
  {
    assert s[j..e][1..] == s[j + 1..e];
  }

  // ---------------------------------------------------------------------------
  // Scanning runs (the two inner loops of `lex`)
  // ---------------------------------------------------------------------------

  /** Where a number run ends, and whether it stopped at a second point. */
  datatype NumberRun = NumberRun(end: nat, tooManyPoints: bool)

  /** Maximal munch over digits and points from `j`, `dots` points having been seen. */
  function ScanNumber(s: string, j: nat, dots: nat): (r: NumberRun)
    requires j <= |s| && dots <= 1
    decreases |s| - j
    ensures j <= r.end <= |s|
    ensures forall p :: j <= p < r.end ==> IsNumberChar(s[p])
    ensures dots + DotCount(s[j..r.end]) <= 1
    ensures !r.tooManyPoints ==> r.end == |s| || !IsNumberChar(s[r.end])
    ensures r.tooManyPoints ==> r.end < |s| && s[r.end] == '.' && dots + DotCount(s[j..r.end]) == 1
    ensures j < |s| && (IsDigit(s[j]) || (s[j] == '.' && dots == 0)) ==> r.end > j
  {
    if j == |s| then NumberRun(j, false)
    else if s[j] == '.' then
      if dots == 1 then NumberRun(j, true)
      else
        var r := ScanNumber(s, j + 1, 1);
        DotCountSlice(s, j, r.end);
        r
    else if IsDigit(s[j]) then
      var r := ScanNumber(s, j + 1, dots);
      DotCountSlice(s, j, r.end);
      r
    else NumberRun(j, false)
  }

  /** Maximal munch over identifier characters from `j`. */
  function ScanWord(s: string, j: nat): (e: nat)
    requires j <= |s|
    decreases |s| - j
    ensures j <= e <= |s|
    ensures forall p :: j <= p < e ==> IsWordChar(s[p])
    ensures e == |s| || !IsWordChar(s[e])
  {
    if j < |s| && IsWordChar(s[j]) then ScanWord(s, j + 1) else j
  }

  /** An identifier lexeme becomes a constant, a function, or an unknown-identifier
      error; the lookups are exact and case-sensitive. */
  function ClassifyWord(name: string, at: nat): Token {
    if name in KnownConsts then Token(Const, name, at, None)
    else if name in KnownFunctions then Token(Function, name, at, None)
    else Token(Bad, name, at, Some(UnknownIdentifier(name)))
  }

  // ---------------------------------------------------------------------------
  // What a lexed token says about the input
  // ---------------------------------------------------------------------------

  /** Characters of input a token occupies: its lexeme, or the one character an
      unknown-character token stands for (it keeps an empty lexeme). */
  function Width(t: Token): nat {
    if |t.lexeme| == 0 then 1 else |t.lexeme|
  }

  /** Offset just past the token in the input. */
  function End(t: Token): int {
    t.charIndex + Width(t)
  }

  predicate NoSpaceIn(s: string, lo: int, hi: int)
    requires 0 <= lo <= hi <= |s|
  {
    forall p :: lo <= p < hi ==> !IsSpace(s[p])
  }

  /** A token begun by a digit or a point: either a well-shaped number that
      stops before the next digit or point, or the part before a second point,
      marked with the decimal-point error. */
  predicate NumberToken(s: string, t: Token)
    requires 0 <= t.charIndex && End(t) <= |s|
  {
    && t.lexeme == s[t.charIndex..End(t)]
    && ( || (t.kind == Number && NumberShape(t.lexeme)
             && (End(t) == |s| || !IsNumberChar(s[End(t)])))
         || (t.kind == Bad && t.error == Some(DecimalPointCount)
             && |t.lexeme| > 0 && AllNumberChars(t.lexeme) && DotCount(t.lexeme) == 1
             && End(t) < |s| && s[End(t)] == '.'))
  }

  /** A token begun by a letter or `_`: the maximal identifier run, classified
      against the constant table first and the function table second. */
  predicate WordToken(s: string, t: Token)
    requires 0 <= t.charIndex && End(t) <= |s|
  {
    && t.lexeme == s[t.charIndex..End(t)]
    && |t.lexeme| > 0
    && (forall k :: 0 <= k < |t.lexeme| ==> IsWordChar(t.lexeme[k]))
    && (End(t) == |s| || !IsWordChar(s[End(t)]))
    && (t.kind == Const <==> t.lexeme in KnownConsts)
    && (t.kind == Function <==> t.lexeme !in KnownConsts && t.lexeme in KnownFunctions)
    && (t.kind == Bad <==> t.lexeme !in KnownConsts && t.lexeme !in KnownFunctions)
    && (t.kind == Bad ==> t.error == Some(UnknownIdentifier(t.lexeme)))
  }

  /** Everything the lexer promises about one token it emits for input `s`. */
  predicate LexedAt(s: string, t: Token) {
    && 0 <= t.charIndex && End(t) <= |s|
    && WellFormed(t)
    && NoSpaceIn(s, t.charIndex, End(t))
    && var c := s[t.charIndex];
    && (IsNumberChar(c) ==> NumberToken(s, t))
    && (IsWordStart(c) ==> WordToken(s, t))
    && (SymbolKind(c).Some? ==> t.kind == SymbolKind(c).value && t.lexeme == [c])
    && (!IsNumberChar(c) && !IsWordStart(c) && SymbolKind(c).None? ==>
          t.kind == Bad && t.lexeme == "" && t.error == Some(UnknownChar(c)))
  }

  // ---------------------------------------------------------------------------
  // The lexer
  // ---------------------------------------------------------------------------

  /** A token and the offset where scanning resumes after it. */
  datatype Lexed = Lexed(token: Token, next: nat)

  /** The token that starts at the non-whitespace character `s[i]`. */
  function NextToken(s: string, i: nat): (r: Lexed)
    requires i < |s| && !IsSpace(s[i])
    ensures r.token.charIndex == i && r.next == End(r.token) && r.next <= |s|
  {
    if IsNumberChar(s[i]) then
      var run := ScanNumber(s, i, 0);
      var t := if run.tooManyPoints then Token(Bad, s[i..run.end], i, Some(DecimalPointCount))
               else Token(Number, s[i..run.end], i, None);
      Lexed(t, run.end)
    else if IsWordStart(s[i]) then
      var e := ScanWord(s, i);
      Lexed(ClassifyWord(s[i..e], i), e)
    else if SymbolKind(s[i]).Some? then
      Lexed(Token(SymbolKind(s[i]).value, [s[i]], i, None), i + 1)
    else
      Lexed(Token(Bad, "", i, Some(UnknownChar(s[i]))), i + 1)
  }

  lemma NextTokenLexed(s: string, i: nat)
    requires i < |s| && !IsSpace(s[i])
    ensures LexedAt(s, NextToken(s, i).token)
  {
    var t := NextToken(s, i).token;
    if IsNumberChar(s[i]) {
      assert NumberToken(s, t);
    } else if IsWordStart(s[i]) {
      assert WordToken(s, t);
    }
  }

  /** Tokens of `s[i..]`: one left-to-right pass, whitespace skipped, maximal
      munch for numbers and identifiers, bad input turned into `Bad` tokens. */
  function LexFrom(s: string, i: nat): seq<Token>
    requires i <= |s|
    decreases |s| - i
  {
    if i == |s| then []
    else if IsSpace(s[i]) then LexFrom(s, i + 1)
    else
      var n := NextToken(s, i);
      [n.token] + LexFrom(s, n.next)
  }

  /** Every token of `s[i..]` satisfies the per-token rules and starts at or
      after `i`, and each token ends before the next one starts. */
  lemma {:induction false} LexFromLexed(s: string, i: nat)
    requires i <= |s|
    decreases |s| - i
    ensures var r := LexFrom(s, i);
      && (forall k :: 0 <= k < |r| ==> i <= r[k].charIndex && LexedAt(s, r[k]))
      && (forall k, l :: 0 <= k < l < |r| ==> End(r[k]) <= r[l].charIndex)
  {
    if i < |s| {
      LexFromStep(s, i);
      if IsSpace(s[i]) {
        LexFromLexed(s, i + 1);
      } else {
        var n := NextToken(s, i);
        NextTokenLexed(s, i);
        LexFromLexed(s, n.next);
      }
    }
  }

  function Lex(s: string): seq<Token> {
    LexFrom(s, 0)
  }

  /** One step of the lexer: skip whitespace, or emit the next token and resume after it. */
  lemma LexFromStep(s: string, k: nat)
    requires k < |s|
    ensures IsSpace(s[k]) ==> LexFrom(s, k) == LexFrom(s, k + 1)
    ensures !IsSpace(s[k]) ==>
              LexFrom(s, k) == [NextToken(s, k).token] + LexFrom(s, NextToken(s, k).next)
  {
  }

  lemma LexScanStep(s: string, k: nat, tokens: seq<Token>, t: Token, skip: int)
    requires k < |s| && !IsSpace(s[k]) && 0 <= skip
    requires NextToken(s, k) == Lexed(t, k + 1 + skip)
    requires tokens + LexFrom(s, k) == Lex(s)
    ensures tokens + [t] + LexFrom(s, k + 1 + skip) == Lex(s)
  {
    LexFromStep(s, k);
    assert tokens + [t] + LexFrom(s, k + 1 + skip) == tokens + ([t] + LexFrom(s, k + 1 + skip));
  }

  /** The inner loop of the number branch: the run from `k`, and the skip count
      it leaves (one less than the characters it consumed). */
  method NumberLoop(s: string, k: nat) returns (lexeme: string, tooMany: bool, skip: int)
    requires k < |s| && IsNumberChar(s[k])
    ensures 0 <= skip && k + 1 + skip <= |s|
    ensures ScanNumber(s, k, 0) == NumberRun(k + 1 + skip, tooMany)
    ensures lexeme == s[k..k + 1 + skip]
  {
    var dots := 0;
    lexeme := "";
    tooMany := false;
    skip := -1;
    var j := k;
    while j < |s|
      invariant k <= j <= |s|
      invariant lexeme == s[k..j]
      invariant skip == j - k - 1
      invariant dots <= 1 && !tooMany
      invariant ScanNumber(s, j, dots) == ScanNumber(s, k, 0)
    {
      var d := s[j];
      if d == '.' {
        dots := dots + 1;
        if dots > 1 {
          tooMany := true;
          break;
        }
        lexeme := lexeme + [d];
        skip := skip + 1;
      } else if IsDigit(d) {
        lexeme := lexeme + [d];
        skip := skip + 1;
      } else {
        break;
      }
      j := j + 1;
    }
  }

  /** The inner loop of the identifier branch. */
  method WordLoop(s: string, k: nat) returns (lexeme: string, skip: int)
    requires k < |s| && IsWordStart(s[k])
    ensures 0 <= skip && k + 1 + skip == ScanWord(s, k)
    ensures lexeme == s[k..k + 1 + skip]
  {
    lexeme := "";
    skip := -1;
    var j := k;
    while j < |s|
      invariant k <= j <= |s|
      invariant lexeme == s[k..j]
      invariant skip == j - k - 1
      invariant ScanWord(s, j) == ScanWord(s, k)
    {
      var d := s[j];
      if IsWordChar(d) {
        lexeme := lexeme + [d];
        skip := skip + 1;
      } else {
        break;
      }
      j := j + 1;
    }
  }

  /** The body of the outer loop for a character that starts a token: the
      token, and the skip count for the characters its inner loop consumed. */
  method LexOne(s: string, k: nat) returns (t: Token, skip: int)
    requires k < |s| && !IsSpace(s[k])
    ensures 0 <= skip && NextToken(s, k) == Lexed(t, k + 1 + skip)
  {
    var c := s[k];
    skip := 0;
    if IsNumberChar(c) {
      var lexeme, tooMany, n := NumberLoop(s, k);
      t := if tooMany then Token(Bad, lexeme, k, Some(DecimalPointCount))
           else Token(Number, lexeme, k, None);
      skip := n;
    } else if IsWordStart(c) {
      var lexeme, n := WordLoop(s, k);
      t := ClassifyWord(lexeme, k);
      skip := skip - 1 + n + 1;
    } else if SymbolKind(c).Some? {
      t := Token(SymbolKind(c).value, [c], k, None);
    } else {
      t := Token(Bad, "", k, Some(UnknownChar(c)));
    }
  }

  /** The outer loop's body when no characters remain to be skipped: pass over
      whitespace, or emit the token starting at `s[k]`. */
  method LexAt(s: string, k: nat, tokens: seq<Token>) returns (tokens': seq<Token>, skip: int)
    requires k < |s| && tokens + LexFrom(s, k) == Lex(s)
    ensures 0 <= skip && k + 1 + skip <= |s|
    ensures tokens' + LexFrom(s, k + 1 + skip) == Lex(s)
  {
    LexFromStep(s, k);
    if IsSpace(s[k]) {
      tokens', skip := tokens, 0;
    } else {
      var t;
      t, skip := LexOne(s, k);
      LexScanStep(s, k, tokens, t, skip);
      tokens' := tokens + [t];
    }
  }

  /** The lexer as written: one `for` over the characters, with a skip counter
      that makes the outer loop pass over the characters an inner loop consumed. */
  method LexScan(s: string) returns (tokens: seq<Token>)
    ensures tokens == Lex(s)
  {
    var skip: int := 0;
    tokens := [];
    var k := 0;
    while k < |s|
      invariant 0 <= k <= |s|
      invariant 0 <= skip && k + skip <= |s|
      invariant tokens + LexFrom(s, k + skip) == Lex(s)
    {
      if skip > 0 {
        skip := skip - 1;
      } else {
        tokens, skip := LexAt(s, k, tokens);
      }
      k := k + 1;
    }
    assert LexFrom(s, k + skip) == [];
    assert tokens + [] == tokens;
  }

  // ---------------------------------------------------------------------------
  // Properties of the lexer
  // ---------------------------------------------------------------------------

  predicate Covers(t: Token, p: int) {
    t.charIndex <= p < End(t)
  }

  lemma {:induction false} LexFromCovers(s: string, i: nat, p: int)
    requires i <= p < |s| && !IsSpace(s[p])
    ensures exists k :: 0 <= k < |LexFrom(s, i)| && Covers(LexFrom(s, i)[k], p)
    decreases |s| - i
  {
    var r := LexFrom(s, i);
    LexFromStep(s, i);
    if IsSpace(s[i]) {
      LexFromCovers(s, i + 1, p);
    } else {
      var next := NextToken(s, i).next;
      assert r[1..] == LexFrom(s, next);
      if p >= next {
        LexFromCovers(s, next, p);
        var k :| 0 <= k < |LexFrom(s, next)| && Covers(LexFrom(s, next)[k], p);
        assert r[k + 1] == LexFrom(s, next)[k];
      } else {
        assert Covers(r[0], p);
      }
    }
  }

  /** The tokens partition the non-whitespace characters: a character lies in
      some token exactly when it is not whitespace, and in at most one token,
      the tokens coming in increasing offset order. */
  lemma LexPartition(s: string)
    ensures forall k, l :: 0 <= k < l < |Lex(s)| ==> Lex(s)[k].charIndex < Lex(s)[l].charIndex
    ensures forall p :: 0 <= p < |s| ==>
              (!IsSpace(s[p]) <==> exists k :: 0 <= k < |Lex(s)| && Covers(Lex(s)[k], p))
    ensures forall p, k, l :: 0 <= k < l < |Lex(s)| && Covers(Lex(s)[k], p) ==> !Covers(Lex(s)[l], p)
  {
    var r := Lex(s);
    LexFromLexed(s, 0);
    forall p | 0 <= p < |s|
      ensures !IsSpace(s[p]) <==> exists k :: 0 <= k < |r| && Covers(r[k], p)
    {
      if !IsSpace(s[p]) {
        LexFromCovers(s, 0, p);
      } else {
        forall k | 0 <= k < |r| ensures !Covers(r[k], p) {
          assert LexedAt(s, r[k]);
        }
      }
    }
  }

  lemma {:induction false} ScanToEnd(s: string, j: nat, dots: nat)
    requires j <= |s| && dots <= 1
    requires forall p :: j <= p < |s| ==> IsNumberChar(s[p])
    requires dots + DotCount(s[j..]) <= 1
    ensures ScanNumber(s, j, dots) == NumberRun(|s|, false)
    decreases |s| - j
  {
    if j < |s| {
      DotCountSlice(s, j, |s|);
      assert s[j..|s|] == s[j..] && s[j + 1..|s|] == s[j + 1..];
      ScanToEnd(s, j + 1, if s[j] == '.' then 1 else dots);
    }
  }

  /** A run of digits with at most one point lexes to one `Number` token whose
      lexeme is the run verbatim. */
  lemma LexNumberLiteral(d: string)
    requires NumberShape(d)
    ensures Lex(d) == [Token(Number, d, 0, None)]
  {
    assert d[0..] == d;
    ScanToEnd(d, 0, 0);
    assert d[0..|d|] == d;
    assert NextToken(d, 0) == Lexed(Token(Number, d, 0, None), |d|);
    assert LexFrom(d, |d|) == [];
  }

  /** A second point ends the number as a `Bad` token that keeps the partial
      lexeme, and the point starts the next number. */
  lemma LexSecondPoint()
    ensures Lex("1.2.3") == [Token(Bad, "1.2", 0, Some(DecimalPointCount)), Token(Number, ".3", 3, None)]
  {
    var s := "1.2.3";
    assert ScanNumber(s, 0, 0) == NumberRun(3, true);
    assert s[0..3] == "1.2";
    assert ScanNumber(s, 3, 0) == NumberRun(5, false);
    assert s[3..5] == ".3";
  }

  // ---------------------------------------------------------------------------
  // Error reporting
  // ---------------------------------------------------------------------------

  /** `get_lex_error_count`: the number of `Bad` tokens. */
  function LexErrorCount(ts: seq<Token>): (n: nat)
    ensures n <= |ts|
    ensures n == 0 <==> forall k :: 0 <= k < |ts| ==> ts[k].kind != Bad
  {
    if |ts| == 0 then 0
    else LexErrorCount(DropLast(ts)) + (if ts[|ts| - 1].kind == Bad then 1 else 0)
  }

  function DigitChar(n: nat): char
    requires n < 10
  {
    ('0' as int + n) as char
  }

  /** Decimal rendering of a natural number, as Python's f-string prints it. */
  function NatToString(n: nat): (r: string)
    ensures |r| > 0
    decreases n
  {
    if n < 10 then [DigitChar(n)] else NatToString(n / 10) + [DigitChar(n % 10)]
  }

  function IntToString(n: int): string {
    if n < 0 then "-" + NatToString(-n) else NatToString(n)
  }

  /** `TokenError.string`: the printable character quoted, any other by its code point. */
  function ErrorMessage(e: TokenError): string {
    match e
    case UnknownChar(c) =>
      "Unknown char " + (if IsPrintable(c) then "'" + [c] + "'" else NatToString(c as nat))
    case UnknownIdentifier(name) => "Unknown constant or function '" + name + "'"
    case DecimalPointCount => "Number cannot have more than one decimal point"
  }

  /** One line of `print_lex_errors`, with the 1-based character position. */
  function ErrorLine(t: Token): string
    requires t.error.Some?
  {
    "TOKEN ERROR: char " + IntToString(t.charIndex + 1) + ". " + ErrorMessage(t.error.value) + "."
  }

  /** What `print_lex_errors` prints, and the count it returns. */
  datatype LexReport = LexReport(lines: seq<string>, count: nat)

  /** `print_lex_errors` reads the error object of every `Bad` token, so it
      needs the tokens the lexer makes: error object present exactly on `Bad`. */
  function PrintLexErrors(ts: seq<Token>): (r: LexReport)
    requires forall k :: 0 <= k < |ts| ==> WellFormed(ts[k])
    ensures r.count == |r.lines|
  {
    if |ts| == 0 then LexReport([], 0)
    else
      var r := PrintLexErrors(DropLast(ts));
      var t := ts[|ts| - 1];
      assert WellFormed(t);
      if t.kind == Bad then LexReport(r.lines + [ErrorLine(t)], r.count + 1)
      else r
  }

  /** Both helpers return the number of `Bad` tokens. */
  lemma {:induction false} PrintLexErrorsCount(ts: seq<Token>)
    requires forall k :: 0 <= k < |ts| ==> WellFormed(ts[k])
    ensures PrintLexErrors(ts).count == LexErrorCount(ts)
  {
    if |ts| > 0 {
      PrintLexErrorsCount(DropLast(ts));
    }
  }
}
