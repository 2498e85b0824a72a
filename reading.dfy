/** What a successful parse keeps of its tokens: reading a tree's leaves
    and operators from left to right gives back exactly the tokens it was
    parsed from, with the parentheses dropped (and the `0` a leading sign
    stands for put in front). No token is lost, duplicated or reordered. */
module Reading {
  import opened Syntax
  import opened Lexer
  import opened Numbers
  import opened Grammar

  /** The leaves and operators of a tree from left to right. */
  function Flatten(e: Expr): seq<string>
  {
    match e
    case Number(v) => [v]
    case Binary(op, l, r) => Flatten(l) + [Symbol(op)] + Flatten(r)
  }

  predicate IsParenthesis(t: string) { t == "(" || t == ")" }

  /** The tokens without the parentheses. */
  function Unbracketed(ts: seq<string>): (r: seq<string>)
    ensures |r| <= |ts|
  {
    if ts == [] then []
    else (if IsParenthesis(ts[0]) then [] else [ts[0]]) + Unbracketed(ts[1..])
  }

  lemma {:induction false} UnbracketedAppend(a: seq<string>, b: seq<string>)
    ensures Unbracketed(a + b) == Unbracketed(a) + Unbracketed(b)
  {
    if a != [] {
      assert (a + b)[1..] == a[1..] + b;
      UnbracketedAppend(a[1..], b);
    } else {
      assert a + b == b;
    }
  }

  lemma Associative(x: seq<string>, y: seq<string>, z: seq<string>)
    ensures x + y + z == x + (y + z)
  {
  }

  /** `ts[i..k]` read in two pieces split at `j`. */
  lemma UnbracketedSplit(ts: seq<string>, i: nat, j: nat, k: nat)
    requires i <= j <= k <= |ts|
    ensures Unbracketed(ts[i..k]) == Unbracketed(ts[i..j]) + Unbracketed(ts[j..k])
  {
    assert ts[i..k] == ts[i..j] + ts[j..k];
    UnbracketedAppend(ts[i..j], ts[j..k]);
  }

  /** A token that is not a parenthesis, then the rest. */
  lemma UnbracketedCons(ts: seq<string>, i: nat, k: nat)
    requires i < k <= |ts|
    ensures Unbracketed(ts[i..k]) ==
      (if IsParenthesis(ts[i]) then [] else [ts[i]]) + Unbracketed(ts[i + 1..k])
  {
    assert ts[i..k][1..] == ts[i + 1..k];
  }

  /** Reading `left op right rest` where `op` is `ts[pos]` and `right` was read
      from the tokens after it. */
  lemma OperatorStep(ts: seq<string>, pos: nat, mid: nat, n: nat, left: seq<string>, right: seq<string>, op: string)
    requires pos < mid <= n <= |ts| && ts[pos] == op && !IsParenthesis(op)
    requires right == Unbracketed(ts[pos + 1..mid])
    ensures left + [op] + right + Unbracketed(ts[mid..n]) == left + Unbracketed(ts[pos..n])
  {
    UnbracketedCons(ts, pos, n);
    UnbracketedSplit(ts, pos + 1, mid, n);
  }

  /** The `0` a sign at position 0 stands for. */
  function Lead(ts: seq<string>, pos: nat): seq<string>
  {
    if pos == 0 && IsSign(TokenAt(ts, 0)) then ["0"] else []
  }

  lemma NumberIsNoParenthesis(t: string)
    requires IsNumber(Some(t))
    ensures !IsParenthesis(t) && !IsSign(Some(t))
  {
    assert IsDigit(t[0]);
  }

  /** One token that is not a parenthesis reads as itself. */
  lemma SingleToken(ts: seq<string>, pos: nat)
    requires pos < |ts| && !IsParenthesis(ts[pos])
    ensures Unbracketed(ts[pos..pos + 1]) == [ts[pos]]
  {
    UnbracketedCons(ts, pos, pos + 1);
    assert ts[pos + 1..pos + 1] == [];
  }

  /** A parenthesized stretch reads as its inside. */
  lemma Parenthesized(ts: seq<string>, pos: nat, m: nat)
    requires pos < m < |ts| && ts[pos] == "(" && ts[m] == ")"
    ensures Unbracketed(ts[pos..m + 1]) == Unbracketed(ts[pos + 1..m])
  {
    UnbracketedCons(ts, pos, m + 1);
    UnbracketedSplit(ts, pos + 1, m, m + 1);
    UnbracketedCons(ts, m, m + 1);
    assert ts[m + 1..m + 1] == [];
  }

  /** Reading `ts[i..j]` and then `ts[j..k]` reads `ts[i..k]`. */
  lemma Chain(ts: seq<string>, i: nat, j: nat, k: nat, lead: seq<string>, a: seq<string>, b: seq<string>)
    requires i <= j <= k <= |ts|
    requires a == lead + Unbracketed(ts[i..j]) && b == a + Unbracketed(ts[j..k])
    ensures b == lead + Unbracketed(ts[i..k])
  {
    UnbracketedSplit(ts, i, j, k);
    Associative(lead, Unbracketed(ts[i..j]), Unbracketed(ts[j..k]));
  }

  lemma {:induction false} PrimaryReadsInOrder(ts: seq<string>, pos: nat)
    requires pos <= |ts|
    ensures var r := PrimaryExprAt(ts, pos);
      r.Ok? ==> Flatten(r.value.tree) == Lead(ts, pos) + Unbracketed(ts[pos..r.value.next])
    decreases |ts| - pos, 1
  {
    var token := TokenAt(ts, pos);
    if IsNumber(token) {
      NumberIsNoParenthesis(ts[pos]);
      SingleToken(ts, pos);
    } else if pos == 0 && IsSign(token) {
      SignReadsInOrder(ts);
    } else if token == Some("(") {
      ParenthesesReadInOrder(ts, pos);
    }
  }

  lemma {:induction false} SignReadsInOrder(ts: seq<string>)
    requires ts != [] && IsSign(Some(ts[0]))
    ensures var r := PrimaryExprAt(ts, 0);
      r.Ok? ==> Flatten(r.value.tree) == ["0"] + Unbracketed(ts[0..r.value.next])
    decreases |ts|, 0
  {
    var r := PrimaryExprAt(ts, 0);
    if r.Ok? {
      var p := PrimaryExprAt(ts, 1).value;
      PrimaryReadsInOrder(ts, 1);
      var op := if ts[0] == "-" then Minus else Plus;
      assert r.value == Parsed(Binary(op, Number("0"), p.tree), p.next);
      OperatorStep(ts, 0, p.next, p.next, ["0"], Flatten(p.tree), Symbol(op));
      assert ts[p.next..p.next] == [];
    }
  }

  lemma {:induction false} ParenthesesReadInOrder(ts: seq<string>, pos: nat)
    requires pos < |ts| && ts[pos] == "("
    ensures var r := PrimaryExprAt(ts, pos);
      r.Ok? ==> Flatten(r.value.tree) == Unbracketed(ts[pos..r.value.next])
    decreases |ts| - pos, 0
  {
    var r := PrimaryExprAt(ts, pos);
    if r.Ok? {
      var e := ExprAt(ts, pos + 1);
      assert e.Ok?;
      var p := e.value;
      ExprReadsInOrder(ts, pos + 1);
      assert r.value == Parsed(p.tree, p.next + 1);
      Parenthesized(ts, pos, p.next);
    }
  }

  lemma {:induction false} MulReadsInOrder(ts: seq<string>, pos: nat)
    requires pos <= |ts|
    ensures var r := MulExprAt(ts, pos);
      r.Ok? ==> Flatten(r.value.tree) == Lead(ts, pos) + Unbracketed(ts[pos..r.value.next])
    decreases |ts| - pos, 2
  {
    var r := MulExprAt(ts, pos);
    if r.Ok? {
      var p := PrimaryExprAt(ts, pos).value;
      PrimaryReadsInOrder(ts, pos);
      MulRestReadsInOrder(ts, p.tree, p.next);
      Chain(ts, pos, p.next, r.value.next, Lead(ts, pos), Flatten(p.tree), Flatten(r.value.tree));
    }
  }

  lemma {:induction false} MulRestReadsInOrder(ts: seq<string>, acc: Expr, pos: nat)
    requires pos <= |ts|
    ensures var r := MulExprRest(ts, acc, pos);
      r.Ok? ==> Flatten(r.value.tree) == Flatten(acc) + Unbracketed(ts[pos..r.value.next])
    decreases |ts| - pos, 1
  {
    if IsMulOp(TokenAt(ts, pos)) {
      MulStepReadsInOrder(ts, acc, pos);
    } else {
      assert ts[pos..pos] == [];
    }
  }

  lemma {:induction false} MulStepReadsInOrder(ts: seq<string>, acc: Expr, pos: nat)
    requires pos < |ts| && IsMulOp(Some(ts[pos]))
    ensures var r := MulExprRest(ts, acc, pos);
      r.Ok? ==> Flatten(r.value.tree) == Flatten(acc) + Unbracketed(ts[pos..r.value.next])
    decreases |ts| - pos, 0
  {
    var r := MulExprRest(ts, acc, pos);
    if r.Ok? {
      var q := PrimaryExprAt(ts, pos + 1);
      assert q.Ok?;
      var p := q.value;
      var op := if ts[pos] == "*" then Times else Divide;
      assert r == MulExprRest(ts, Binary(op, acc, p.tree), p.next);
      PrimaryReadsInOrder(ts, pos + 1);
      MulRestReadsInOrder(ts, Binary(op, acc, p.tree), p.next);
      OperatorStep(ts, pos, p.next, r.value.next, Flatten(acc), Flatten(p.tree), Symbol(op));
    }
  }

  lemma {:induction false} ExprReadsInOrder(ts: seq<string>, pos: nat)
    requires pos <= |ts|
    ensures var r := ExprAt(ts, pos);
      r.Ok? ==> Flatten(r.value.tree) == Lead(ts, pos) + Unbracketed(ts[pos..r.value.next])
    decreases |ts| - pos, 3
  {
    var r := ExprAt(ts, pos);
    if r.Ok? {
      var p := MulExprAt(ts, pos).value;
      MulReadsInOrder(ts, pos);
      ExprRestReadsInOrder(ts, p.tree, p.next);
      Chain(ts, pos, p.next, r.value.next, Lead(ts, pos), Flatten(p.tree), Flatten(r.value.tree));
    }
  }

  lemma {:induction false} ExprRestReadsInOrder(ts: seq<string>, acc: Expr, pos: nat)
    requires pos <= |ts|
    ensures var r := ExprRest(ts, acc, pos);
      r.Ok? ==> Flatten(r.value.tree) == Flatten(acc) + Unbracketed(ts[pos..r.value.next])
    decreases |ts| - pos, 1
  {
    if IsAddOp(TokenAt(ts, pos)) {
      AddStepReadsInOrder(ts, acc, pos);
    } else {
      assert ts[pos..pos] == [];
    }
  }

  lemma {:induction false} AddStepReadsInOrder(ts: seq<string>, acc: Expr, pos: nat)
    requires pos < |ts| && IsAddOp(Some(ts[pos]))
    ensures var r := ExprRest(ts, acc, pos);
      r.Ok? ==> Flatten(r.value.tree) == Flatten(acc) + Unbracketed(ts[pos..r.value.next])
    decreases |ts| - pos, 0
  {
    var r := ExprRest(ts, acc, pos);
    if r.Ok? {
      var m := MulExprAt(ts, pos + 1);
      assert m.Ok?;
      var p := m.value;
      var op := if ts[pos] == "+" then Plus else Minus;
      assert r == ExprRest(ts, Binary(op, acc, p.tree), p.next);
      MulReadsInOrder(ts, pos + 1);
      ExprRestReadsInOrder(ts, Binary(op, acc, p.tree), p.next);
      OperatorStep(ts, pos, p.next, r.value.next, Flatten(acc), Flatten(p.tree), Symbol(op));
    }
  }

  /** A parsed tree read from left to right is the token sequence without
      its parentheses, after a `0` when the input starts with a sign. */
  lemma ParseReadsInOrder(ts: seq<string>)
    ensures ParseTokens(ts).Ok? ==>
      Flatten(ParseTokens(ts).value) == Lead(ts, 0) + Unbracketed(ts)
  {
    ExprReadsInOrder(ts, 0);
    assert ts[0..|ts|] == ts;
  }
}
