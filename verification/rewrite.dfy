/** The first part of `eval_lex_tokens`: constant substitution, then the
    rewrite of a unary minus `- X` into `( 0 - X )`. */
module Rewrite {
  import opened Wrappers
  import opened Tokens
  import opened Diagnostics

  // ---------------------------------------------------------------------------
  // Constant substitution
  // ---------------------------------------------------------------------------

  /** `u` is what substitution makes of `t`: a constant becomes a number whose
      lexeme is the constant's value, keeping its offset; any other token is kept. */
  predicate SubstitutedAs(t: Token, u: Token) {
    if t.kind == Const then
      t.lexeme in KnownConsts && u == t.(kind := Number, lexeme := KnownConsts[t.lexeme])
    else u == t
  }

  /** Every `Const` token becomes a `Number`; a constant name missing from the
      table raises a KeyError, the first such token ending the run. */
  function Substitute(ts: seq<Token>): (r: Stage<seq<Token>>)
    ensures r.Done? <==> forall k :: 0 <= k < |ts| && ts[k].kind == Const ==> ts[k].lexeme in KnownConsts
    ensures r.Done? ==> |r.value| == |ts|
    ensures r.Done? ==> forall k :: 0 <= k < |ts| ==> SubstitutedAs(ts[k], r.value[k])
    ensures r.Done? ==> forall k :: 0 <= k < |ts| ==> r.value[k].kind != Const
    ensures r.Crashed? ==> exists k :: 0 <= k < |ts| && ts[k].kind == Const
                             && ts[k].lexeme !in KnownConsts && r.reason == UnknownConstant(ts[k].lexeme)
  {
    if |ts| == 0 then Done([])
    else
      var t := ts[0];
      if t.kind == Const && t.lexeme !in KnownConsts then Crashed(UnknownConstant(t.lexeme))
      else
        var u := if t.kind == Const then t.(kind := Number, lexeme := KnownConsts[t.lexeme]) else t;
        match Substitute(ts[1..])
        case Crashed(why) =>
          var k :| 0 <= k < |ts[1..]| && ts[1..][k].kind == Const
                   && ts[1..][k].lexeme !in KnownConsts && why == UnknownConstant(ts[1..][k].lexeme);
          assert ts[k + 1] == ts[1..][k];
          Crashed(why)
        case Done(rest) =>
          assert forall k :: 1 <= k < |ts| ==> ts[k] == ts[1..][k - 1];
          Done([u] + rest)
  }

  // ---------------------------------------------------------------------------
  // Unary minus
  // ---------------------------------------------------------------------------

  /** Kinds that can end an operand: a `-` after one of these is binary. */
  predicate EndsValue(k: Kind) {
    k == Number || k == Const || k == Identifier || k == Close
  }

  /** The `-` heading `ts` is rewritten: a token follows it and is an operand,
      and it is first in the list or the token before it (`prev`) cannot end a value. */
  predicate UnaryHead(ts: seq<Token>, prev: Option<Kind>) {
    && |ts| >= 2
    && ts[0].kind == Sub
    && IsOperandKind(ts[1].kind)
    && (prev.None? || !EndsValue(prev.value))
  }

  /** The rewrite of `ts`, `prev` being the kind of the token before it in the
      list being rewritten (none at the start). */
  function Rw(ts: seq<Token>, prev: Option<Kind>): (r: seq<Token>)
    ensures |r| >= |ts|
    ensures |ts| > 0 ==> r[0] == ts[0] || r[0] == OpenTok
  {
    if |ts| == 0 then []
    else if UnaryHead(ts, prev) then
      [OpenTok, ZeroTok, ts[0], ts[1], CloseTok] + Rw(ts[2..], Some(Close))
    else [ts[0]] + Rw(ts[1..], Some(ts[0].kind))
  }

  function RewriteUnaryMinus(ts: seq<Token>): seq<Token> {
    Rw(ts, None)
  }

  /** The kind of the token before position `i`, as the loop reads it. */
  function PrevKind(cur: seq<Token>, i: nat): Option<Kind>
    requires i <= |cur|
  {
    if i == 0 then None else Some(cur[i - 1].kind)
  }

  /** `cur` with `( 0` inserted before position `i` and `)` after position `i + 1`. */
  function Wrapped(cur: seq<Token>, i: nat): seq<Token>
    requires i + 2 <= |cur|
  {
    cur[..i] + [OpenTok, ZeroTok, cur[i], cur[i + 1], CloseTok] + cur[i + 2..]
  }

  lemma KeepStep(cur: seq<Token>, i: nat)
    requires i < |cur| && !UnaryHead(cur[i..], PrevKind(cur, i))
    ensures cur[..i + 1] + Rw(cur[i + 1..], PrevKind(cur, i + 1)) == cur[..i] + Rw(cur[i..], PrevKind(cur, i))
  {
    assert cur[i..][1..] == cur[i + 1..];
    assert Rw(cur[i..], PrevKind(cur, i)) == [cur[i]] + Rw(cur[i + 1..], PrevKind(cur, i + 1));
    assert cur[..i + 1] == cur[..i] + [cur[i]];
  }

  lemma RewriteStep(cur: seq<Token>, i: nat)
    requires i < |cur| && UnaryHead(cur[i..], PrevKind(cur, i))
    ensures var w := Wrapped(cur, i);
      w[..i + 4] + Rw(w[i + 4..], PrevKind(w, i + 4)) == cur[..i] + Rw(cur[i..], PrevKind(cur, i))
  {
    var w := Wrapped(cur, i);
    var rest := cur[i + 2..];
    assert cur[i..][2..] == rest;
    assert Rw(cur[i..], PrevKind(cur, i)) == [OpenTok, ZeroTok, cur[i], cur[i + 1], CloseTok] + Rw(rest, Some(Close));
    assert w[..i + 4] == cur[..i] + [OpenTok, ZeroTok, cur[i], cur[i + 1]];
    assert w[i + 4..] == [CloseTok] + rest;
    assert ([CloseTok] + rest)[1..] == rest;
    assert Rw(w[i + 4..], PrevKind(w, i + 4)) == [CloseTok] + Rw(rest, Some(Close));
  }

  /** The three insertions the loop makes at the start of the list. */
  lemma WrapFront(c: seq<Token>)
    requires 2 <= |c|
    ensures var c1 := [OpenTok] + c;
      var c2 := c1[..1] + [ZeroTok] + c1[1..];
      c2[..4] + [CloseTok] + c2[4..] == Wrapped(c, 0)
  {
    var c1 := [OpenTok] + c;
    var c2 := c1[..1] + [ZeroTok] + c1[1..];
    assert c2 == [OpenTok, ZeroTok] + c;
    assert c2[..4] == [OpenTok, ZeroTok, c[0], c[1]];
    assert c2[4..] == c[2..];
  }

  /** The three insertions the loop makes inside the list, at position `i`. */
  lemma WrapInside(c: seq<Token>, i: nat)
    requires i + 2 <= |c|
    ensures var c1 := c[..i] + [ZeroTok] + c[i..];
      var c2 := c1[..i] + [OpenTok] + c1[i..];
      c2[..i + 4] + [CloseTok] + c2[i + 4..] == Wrapped(c, i)
  {
    var c1 := c[..i] + [ZeroTok] + c[i..];
    assert c1[..i] == c[..i] && c1[i..] == [ZeroTok] + c[i..];
    var c2 := c1[..i] + [OpenTok] + c1[i..];
    assert c2 == c[..i] + [OpenTok, ZeroTok] + c[i..];
    assert c2[..i + 4] == c[..i] + [OpenTok, ZeroTok, c[i], c[i + 1]];
    assert c2[i + 4..] == c[i + 2..];
  }

  /** The rewrite as written: an index walks a list that grows by three tokens
      at each rewrite, the index then skipping past the inserted `)`. */
  method RewriteLoop(ts: seq<Token>) returns (cur: seq<Token>)
    ensures cur == RewriteUnaryMinus(ts)
  {
    cur := ts;
    var i := 0;
    while i < |cur|
      invariant 0 <= i <= |cur|
      invariant cur[..i] + Rw(cur[i..], PrevKind(cur, i)) == Rw(ts, None)
      decreases |cur| - i
    {
      var rewrite := false;
      if cur[i].kind == Sub {
        if i == 0 {
          if |cur| > 1 {
            if IsOperandKind(cur[i + 1].kind) {
              rewrite := true;
            }
          }
        } else {
          if i + 1 < |cur| {
            if !EndsValue(cur[i - 1].kind) && IsOperandKind(cur[i + 1].kind) {
              rewrite := true;
            }
          }
        }
      }
      assert rewrite == UnaryHead(cur[i..], PrevKind(cur, i));
      if rewrite {
        ghost var before := cur;
        if i == 0 {
          cur := [OpenTok] + cur;
          cur := cur[..1] + [ZeroTok] + cur[1..];
          cur := cur[..i + 4] + [CloseTok] + cur[i + 4..];
          WrapFront(before);
        } else {
          cur := cur[..i] + [ZeroTok] + cur[i..];
          cur := cur[..i] + [OpenTok] + cur[i..];
          cur := cur[..i + 4] + [CloseTok] + cur[i + 4..];
          WrapInside(before, i);
        }
        RewriteStep(before, i);
        i := i + 3;
      } else {
        KeepStep(cur, i);
      }
      i := i + 1;
    }
  }

  // ---------------------------------------------------------------------------
  // Properties of the rewrite
  // ---------------------------------------------------------------------------

  /** `ts` without the tokens the pipeline synthesised. */
  function Erase(ts: seq<Token>): seq<Token> {
    if |ts| == 0 then []
    else (if ts[0].charIndex == Synthetic then [] else [ts[0]]) + Erase(ts[1..])
  }

  predicate FromSource(ts: seq<Token>) {
    forall k :: 0 <= k < |ts| ==> ts[k].charIndex != Synthetic
  }

  lemma {:induction false} EraseAppend(a: seq<Token>, b: seq<Token>)
    ensures Erase(a + b) == Erase(a) + Erase(b)
  {
    if |a| == 0 {
      assert a + b == b;
    } else {
      assert (a + b)[0] == a[0];
      assert (a + b)[1..] == a[1..] + b;
      EraseAppend(a[1..], b);
    }
  }

  lemma EraseGroup(minus: Token, operand: Token)
    requires minus.charIndex != Synthetic && operand.charIndex != Synthetic
    ensures Erase([OpenTok, ZeroTok, minus, operand, CloseTok]) == [minus, operand]
  {
    var g4 := [CloseTok];
    var g3 := [operand] + g4;
    var g2 := [minus] + g3;
    var g1 := [ZeroTok] + g2;
    var g0 := [OpenTok] + g1;
    assert g0 == [OpenTok, ZeroTok, minus, operand, CloseTok];
    assert g4[1..] == [] && g3[1..] == g4 && g2[1..] == g3 && g1[1..] == g2 && g0[1..] == g1;
    assert Erase(g4) == [];
    assert Erase(g3) == [operand];
    assert Erase(g2) == [minus, operand];
    assert Erase(g1) == [minus, operand];
  }

  /** Dropping the synthesised tokens from the rewrite gives back its input:
      the rewrite only inserts, and keeps every input token in order. */
  lemma {:induction false} EraseRewrite(ts: seq<Token>, prev: Option<Kind>)
    requires FromSource(ts)
    ensures Erase(Rw(ts, prev)) == ts
  {
    if |ts| > 0 {
      if UnaryHead(ts, prev) {
        var group := [OpenTok, ZeroTok, ts[0], ts[1], CloseTok];
        EraseRewrite(ts[2..], Some(Close));
        EraseAppend(group, Rw(ts[2..], Some(Close)));
        EraseGroup(ts[0], ts[1]);
        assert [ts[0], ts[1]] + ts[2..] == ts;
      } else {
        EraseRewrite(ts[1..], Some(ts[0].kind));
        EraseAppend([ts[0]], Rw(ts[1..], Some(ts[0].kind)));
        assert Erase([ts[0]]) == [ts[0]] by { assert [ts[0]][1..] == []; }
        assert [ts[0]] + ts[1..] == ts;
      }
    }
  }

  /** The only tokens the rewrite adds are the three synthetic ones. */
  lemma {:induction false} RewriteInsertsOnly(ts: seq<Token>, prev: Option<Kind>)
    requires FromSource(ts)
    ensures forall k :: 0 <= k < |Rw(ts, prev)| && Rw(ts, prev)[k].charIndex == Synthetic ==>
              Rw(ts, prev)[k] == OpenTok || Rw(ts, prev)[k] == ZeroTok || Rw(ts, prev)[k] == CloseTok
    decreases |ts|
  {
    if |ts| > 0 {
      var r := Rw(ts, prev);
      if UnaryHead(ts, prev) {
        assert FromSource(ts[2..]) by {
          assert forall k :: 0 <= k < |ts| - 2 ==> ts[2..][k] == ts[k + 2];
        }
        RewriteInsertsOnly(ts[2..], Some(Close));
        var rest := Rw(ts[2..], Some(Close));
        assert r == [OpenTok, ZeroTok, ts[0], ts[1], CloseTok] + rest;
        assert forall k :: 5 <= k < |r| ==> r[k] == rest[k - 5];
      } else {
        assert FromSource(ts[1..]) by {
          assert forall k :: 0 <= k < |ts| - 1 ==> ts[1..][k] == ts[k + 1];
        }
        RewriteInsertsOnly(ts[1..], Some(ts[0].kind));
        var rest := Rw(ts[1..], Some(ts[0].kind));
        assert r == [ts[0]] + rest;
        assert forall k :: 1 <= k < |r| ==> r[k] == rest[k - 1];
      }
    }
  }

  /** The rewrite of a `( 0 - X )` group: nothing in it is unary, and what
      follows is rewritten after a `)`. */
  lemma RwGroup(minus: Token, operand: Token, rest: seq<Token>, prev: Option<Kind>)
    requires IsOperandKind(operand.kind)
    ensures Rw([OpenTok, ZeroTok, minus, operand, CloseTok] + rest, prev)
         == [OpenTok, ZeroTok, minus, operand, CloseTok] + Rw(rest, Some(Close))
  {
    var g4 := [CloseTok] + rest;
    var g3 := [operand] + g4;
    var g2 := [minus] + g3;
    var g1 := [ZeroTok] + g2;
    var g0 := [OpenTok] + g1;
    Nest5(OpenTok, ZeroTok, minus, operand, CloseTok, rest);
    RwKeep(CloseTok, rest, Some(operand.kind));
    RwKeep(operand, g4, Some(minus.kind));
    RwKeep(minus, g3, Some(Number));
    RwKeep(ZeroTok, g2, Some(Open));
    RwKeep(OpenTok, g1, prev);
    Nest5(OpenTok, ZeroTok, minus, operand, CloseTok, Rw(rest, Some(Close)));
  }

  lemma Nest5(a: Token, b: Token, c: Token, d: Token, e: Token, rest: seq<Token>)
    ensures [a] + ([b] + ([c] + ([d] + ([e] + rest)))) == [a, b, c, d, e] + rest
  {
  }

  /** A token that does not start a unary minus is copied to the rewrite. */
  lemma RwKeep(t: Token, rest: seq<Token>, prev: Option<Kind>)
    requires !UnaryHead([t] + rest, prev)
    ensures Rw([t] + rest, prev) == [t] + Rw(rest, Some(t.kind))
  {
    assert ([t] + rest)[1..] == rest;
  }

  /** Rewriting twice is rewriting once: the inserted `0` makes every rewritten
      `-` binary, and a `-` left alone stays alone. */
  lemma {:induction false} RewriteIdempotent(ts: seq<Token>, prev: Option<Kind>)
    ensures Rw(Rw(ts, prev), prev) == Rw(ts, prev)
  {
    if |ts| > 0 {
      if UnaryHead(ts, prev) {
        var rest := Rw(ts[2..], Some(Close));
        RewriteIdempotent(ts[2..], Some(Close));
        RwGroup(ts[0], ts[1], rest, prev);
      } else {
        var rest := Rw(ts[1..], Some(ts[0].kind));
        RewriteIdempotent(ts[1..], Some(ts[0].kind));
        var out := [ts[0]] + rest;
        assert out[1..] == rest;
        assert !UnaryHead(out, prev);
      }
    }
  }

  /** A `-` at position `i` of `ts` is unary, judged on the input itself. */
  predicate UnaryAt(ts: seq<Token>, i: nat)
    requires i < |ts|
  {
    && ts[i].kind == Sub
    && i + 1 < |ts|
    && IsOperandKind(ts[i + 1].kind)
    && (i == 0 || !EndsValue(ts[i - 1].kind))
  }

  /** `prev` agrees with the input on whether the token before `ts[j..]` ends a value. */
  predicate PrevAgrees(ts: seq<Token>, j: nat, prev: Option<Kind>)
    requires j <= |ts|
  {
    && (prev.None? <==> j == 0)
    && (j > 0 ==> (EndsValue(prev.value) <==> EndsValue(ts[j - 1].kind)))
  }

  /** With no unary minus left, the rewrite changes nothing. */
  lemma {:induction false} RewriteNoUnary(ts: seq<Token>, j: nat, prev: Option<Kind>)
    requires j <= |ts| && PrevAgrees(ts, j, prev)
    requires forall i :: j <= i < |ts| ==> !UnaryAt(ts, i)
    ensures Rw(ts[j..], prev) == ts[j..]
    decreases |ts| - j
  {
    if j < |ts| {
      assert !UnaryAt(ts, j);
      assert ts[j..][1..] == ts[j + 1..];
      RewriteNoUnary(ts, j + 1, Some(ts[j].kind));
    }
  }

  /** A unary minus in the input makes the rewrite strictly longer. */
  lemma {:induction false} RewriteGrows(ts: seq<Token>, j: nat, prev: Option<Kind>, i: nat)
    requires j <= i < |ts| && PrevAgrees(ts, j, prev) && UnaryAt(ts, i)
    ensures |Rw(ts[j..], prev)| > |ts| - j
    decreases |ts| - j
  {
    var s := ts[j..];
    if UnaryHead(s, prev) {
      assert s[2..] == ts[j + 2..];
    } else {
      assert i != j;
      assert s[1..] == ts[j + 1..];
      RewriteGrows(ts, j + 1, Some(ts[j].kind), i);
    }
  }

  /** The rewrite leaves a list unchanged exactly when no `-` in it is unary. */
  lemma RewriteUnchangedIff(ts: seq<Token>)
    ensures RewriteUnaryMinus(ts) == ts <==> forall i :: 0 <= i < |ts| ==> !UnaryAt(ts, i)
  {
    assert ts[0..] == ts;
    if forall i :: 0 <= i < |ts| ==> !UnaryAt(ts, i) {
      RewriteNoUnary(ts, 0, None);
    } else {
      var i :| 0 <= i < |ts| && UnaryAt(ts, i);
      RewriteGrows(ts, 0, None, i);
    }
  }

  /** What the pipeline hands to the converter: no constant is left, and the
      source tokens are all there, in order. */
  lemma SubstituteThenRewrite(ts: seq<Token>)
    requires FromSource(ts) && Substitute(ts).Done?
    ensures var out := RewriteUnaryMinus(Substitute(ts).value);
      && Erase(out) == Substitute(ts).value
      && forall k :: 0 <= k < |out| ==> out[k].kind != Const
  {
    var subst := Substitute(ts).value;
    assert FromSource(subst) by {
      forall k | 0 <= k < |subst| ensures subst[k].charIndex != Synthetic {
        assert SubstitutedAs(ts[k], subst[k]);
      }
    }
    EraseRewrite(subst, None);
    RewriteKeepsKinds(subst, None);
  }

  /** The rewrite introduces no constant. */
  lemma {:induction false} RewriteKeepsKinds(ts: seq<Token>, prev: Option<Kind>)
    requires forall k :: 0 <= k < |ts| ==> ts[k].kind != Const
    ensures forall k :: 0 <= k < |Rw(ts, prev)| ==> Rw(ts, prev)[k].kind != Const
  {
    if |ts| > 0 {
      if UnaryHead(ts, prev) {
        RewriteKeepsKinds(ts[2..], Some(Close));
      } else {
        RewriteKeepsKinds(ts[1..], Some(ts[0].kind));
      }
    }
  }
}
