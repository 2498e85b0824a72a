/** The tokenizer: the global regular expression
      \s*([0-9]+(:?\.[0-9]+)?|[()*\/+-])\s*
    applied repeatedly with `exec`, each match's group 1 pushed onto the
    result. The group `(:?\.[0-9]+)` is kept as written: an optional `:`,
    then `.` and digits, so `1:.5` is one numeral. */
module Lexer {
  import opened Syntax

  predicate IsDigit(c: char) { '0' <= c <= '9' }

  /** A character of OPERATIONS, `()*\/+-`: each is a token by itself. */
  predicate IsOperation(c: char)
  {
    c == '(' || c == ')' || c == '*' || c == '/' || c == '+' || c == '-'
  }

  /** The characters of ECMAScript's `\s` class (WhiteSpace and LineTerminator). */
  predicate IsSpace(c: char)
  {
    c == '\t' || c == '\n' || c == '\U{000B}' || c == '\U{000C}' || c == '\r' || c == ' '
    || c == '\U{00A0}' || c == '\U{1680}' || ('\U{2000}' <= c <= '\U{200A}')
    || c == '\U{2028}' || c == '\U{2029}' || c == '\U{202F}' || c == '\U{205F}'
    || c == '\U{3000}' || c == '\U{FEFF}'
  }

  /** A character at which group 1 of the pattern can begin. */
  predicate StartsToken(c: char) { IsDigit(c) || IsOperation(c) }

  /** `[0-9]+` */
  predicate IsDigits(d: string)
  {
    |d| > 0 && forall i :: 0 <= i < |d| ==> IsDigit(d[i])
  }

  /** `(:?\.[0-9]+)`: an optional colon, a dot, digits. */
  predicate IsFraction(f: string)
  {
    (|f| >= 2 && f[0] == '.' && IsDigits(f[1..]))
    || (|f| >= 3 && f[0] == ':' && f[1] == '.' && IsDigits(f[2..]))
  }

  /** `[0-9]+(:?\.[0-9]+)?` as a whole string. */
  predicate IsNumeral(t: string)
  {
    IsDigits(t) || exists k :: 0 < k < |t| && IsDigits(t[..k]) && IsFraction(t[k..])
  }

  /** What group 1 can capture: a numeral or one character of OPERATIONS. */
  predicate IsToken(t: string)
  {
    (|t| == 1 && IsOperation(t[0])) || IsNumeral(t)
  }

  /** The end of the greedy run `\s*` that starts at `i`. */
  function SkipSpaces(s: string, i: nat): (j: nat)
    requires i <= |s|
    ensures i <= j <= |s|
    ensures forall k :: i <= k < j ==> IsSpace(s[k])
    ensures j == |s| || !IsSpace(s[j])
    decreases |s| - i
  {
    if i < |s| && IsSpace(s[i]) then SkipSpaces(s, i + 1) else i
  }

  /** The end of the greedy run `[0-9]*` that starts at `i`. */
  function DigitsEnd(s: string, i: nat): (j: nat)
    requires i <= |s|
    ensures i <= j <= |s|
    ensures forall k :: i <= k < j ==> IsDigit(s[k])
    ensures j == |s| || !IsDigit(s[j])
    decreases |s| - i
  {
    if i < |s| && IsDigit(s[i]) then DigitsEnd(s, i + 1) else i
  }

  /** Where the numeral that group 1 captures at `j` ends: the greedy digits,
      then `:.digits` or `.digits` when they follow. */
  function NumeralEnd(s: string, j: nat): (e: nat)
    requires j < |s| && IsDigit(s[j])
    ensures j < e <= |s|
  {
    var k := DigitsEnd(s, j);
    if k + 2 < |s| && s[k] == ':' && s[k + 1] == '.' && IsDigit(s[k + 2]) then DigitsEnd(s, k + 2)
    else if k + 1 < |s| && s[k] == '.' && IsDigit(s[k + 1]) then DigitsEnd(s, k + 1)
    else k
  }

  /** What `NumeralEnd` delimits is a numeral, and no digit follows it. */
  lemma {:induction false} NumeralEndIsNumeral(s: string, j: nat)
    requires j < |s| && IsDigit(s[j])
    ensures IsNumeral(s[j..NumeralEnd(s, j)])
    ensures NumeralEnd(s, j) == |s| || !IsDigit(s[NumeralEnd(s, j)])
  {
    var k := DigitsEnd(s, j);
    var e := NumeralEnd(s, j);
    var t := s[j..e];
    assert IsDigits(s[j..k]);
    if k + 2 < |s| && s[k] == ':' && s[k + 1] == '.' && IsDigit(s[k + 2]) {
      assert t[..k - j] == s[j..k];
      assert t[k - j..][2..] == s[k + 2..e];
      assert IsFraction(t[k - j..]);
    } else if k + 1 < |s| && s[k] == '.' && IsDigit(s[k + 1]) {
      assert t[..k - j] == s[j..k];
      assert t[k - j..][1..] == s[k + 1..e];
      assert IsFraction(t[k - j..]);
    }
  }

  /** Group 1 matched at `j`: one operation character or a numeral. */
  function ScanToken(s: string, j: nat): (t: string)
    requires j < |s| && StartsToken(s[j])
    ensures IsToken(t)
    ensures j + |t| <= |s| && s[j..j + |t|] == t
    ensures IsDigit(s[j]) ==> j + |t| == |s| || !IsDigit(s[j + |t|])
  {
    if IsOperation(s[j]) then
      [s[j]]
    else
      NumeralEndIsNumeral(s, j);
      s[j..NumeralEnd(s, j)]
  }

  /** The optional group is greedy too: a numeral of bare digits is never
      followed by a `.digits` or `:.digits` it could have taken. */
  lemma ScanTokenGreedy(s: string, j: nat)
    requires j < |s| && StartsToken(s[j])
    ensures var t := ScanToken(s, j);
      IsDigits(t) ==>
        && !(j + |t| + 1 < |s| && s[j + |t|] == '.' && IsDigit(s[j + |t| + 1]))
        && !(j + |t| + 2 < |s| && s[j + |t|] == ':' && s[j + |t| + 1] == '.' && IsDigit(s[j + |t| + 2]))
  {
    if !IsOperation(s[j]) {
      var k := DigitsEnd(s, j);
      var t := ScanToken(s, j);
      assert t == s[j..NumeralEnd(s, j)];
      if NumeralEnd(s, j) != k {
        assert t[k - j] == s[k];
        assert !IsDigits(t);
      }
    }
  }

  /** One successful `exec`: where the match began (`match.index`), what
      group 1 captured, and where the next search starts (`lastIndex`). */
  datatype Match = Match(index: nat, text: string, lastIndex: nat)

  /** The pattern tried at position `i` alone: leading spaces, group 1,
      trailing spaces. (Backtracking into `\s*` cannot help, since group 1
      never starts with a space.) */
  function MatchAt(s: string, i: nat): (r: Option<Match>)
    requires i <= |s|
    ensures r.Some? ==> r.value.index == i && i < r.value.lastIndex <= |s| && IsToken(r.value.text)
    ensures i < |s| && StartsToken(s[i]) ==> r.Some?
  {
    var j := SkipSpaces(s, i);
    if j < |s| && StartsToken(s[j]) then
      var t := ScanToken(s, j);
      Some(Match(i, t, SkipSpaces(s, j + |t|)))
    else
      None
  }

  /** `tokenRegExp.exec(code)` with `lastIndex == from`: the leftmost match
      at or after `from`, or null. */
  function Exec(s: string, from: nat): (r: Option<Match>)
    requires from <= |s|
    ensures r.Some? ==> from <= r.value.index < r.value.lastIndex <= |s| && IsToken(r.value.text)
    ensures r.Some? ==> forall k :: from <= k < r.value.index ==> !StartsToken(s[k])
    ensures r.None? ==> forall k :: from <= k < |s| ==> !StartsToken(s[k])
    decreases |s| - from
  {
    match MatchAt(s, from)
    case Some(m) => Some(m)
    case None => if from < |s| then Exec(s, from + 1) else None
  }

  /** The tokens in `s[i..]`, read one character at a time: a character at
      which no token starts is dropped, any other begins the token that
      `ScanToken` delimits. This is the reference for the `exec` loop below. */
  function TokensFrom(s: string, i: nat): (r: seq<string>)
    requires i <= |s|
    ensures forall t :: t in r ==> IsToken(t)
    decreases |s| - i
  {
    if i == |s| then []
    else if StartsToken(s[i]) then
      var t := ScanToken(s, i);
      [t] + TokensFrom(s, i + |t|)
    else
      TokensFrom(s, i + 1)
  }

  /** What `tokenize(code)` returns. */
  function Tokens(code: string): seq<string>
  {
    TokensFrom(code, 0)
  }

  /** At a token's first character the reading emits that token and goes on
      right after it. */
  lemma EmitsToken(s: string, j: nat)
    requires j < |s| && StartsToken(s[j])
    ensures TokensFrom(s, j) == [ScanToken(s, j)] + TokensFrom(s, j + |ScanToken(s, j)|)
  {
  }

  /** A run of characters none of which starts a token yields nothing. */
  lemma {:induction false} SkipsRun(s: string, i: nat, j: nat)
    requires i <= j <= |s|
    requires forall k :: i <= k < j ==> !StartsToken(s[k])
    ensures TokensFrom(s, i) == TokensFrom(s, j)
    decreases j - i
  {
    if i < j {
      SkipsRun(s, i + 1, j);
    }
  }

  /** A match at `i` captures the next token of the reference reading, and
      the reading goes on from the match's `lastIndex`. */
  lemma {:induction false} MatchAtFindsNextToken(s: string, i: nat)
    requires i <= |s| && MatchAt(s, i).Some?
    ensures TokensFrom(s, i) == [MatchAt(s, i).value.text] + TokensFrom(s, MatchAt(s, i).value.lastIndex)
  {
    var m := MatchAt(s, i).value;
    var j := SkipSpaces(s, i);
    assert j < |s| && StartsToken(s[j]);
    var t := ScanToken(s, j);
    assert m.text == t && m.lastIndex == SkipSpaces(s, j + |t|);
    forall k | i <= k < j ensures !StartsToken(s[k]) {
      SpaceStartsNoToken(s[k]);
    }
    SkipsRun(s, i, j);
    EmitsToken(s, j);
    forall k | j + |t| <= k < m.lastIndex ensures !StartsToken(s[k]) {
      SpaceStartsNoToken(s[k]);
    }
    SkipsRun(s, j + |t|, m.lastIndex);
  }

  /** One `exec` from `lastIndex == from` finds exactly the next token of the
      reference reading, and continues where that reading continues; a null
      result means the reading has nothing left. */
  lemma {:induction false} ExecFindsNextToken(s: string, from: nat)
    requires from <= |s|
    ensures Exec(s, from).None? ==> TokensFrom(s, from) == []
    ensures Exec(s, from).Some? ==>
      TokensFrom(s, from) == [Exec(s, from).value.text] + TokensFrom(s, Exec(s, from).value.lastIndex)
    decreases |s| - from
  {
    if MatchAt(s, from).Some? {
      assert Exec(s, from) == MatchAt(s, from);
      MatchAtFindsNextToken(s, from);
    } else if from < |s| {
      assert !StartsToken(s[from]);
      assert Exec(s, from) == Exec(s, from + 1);
      assert TokensFrom(s, from) == TokensFrom(s, from + 1);
      ExecFindsNextToken(s, from + 1);
    }
  }

  lemma SpaceStartsNoToken(c: char)
    requires IsSpace(c)
    ensures !StartsToken(c)
  {
  }

  /** The digits and OPERATIONS characters of `s`, in order: what the
      tokenizer is meant to keep. */
  function Kept(s: string): (r: string)
    ensures |r| <= |s|
  {
    if s == [] then []
    else (if StartsToken(s[0]) then [s[0]] else []) + Kept(s[1..])
  }

  /** The tokens written one after another. */
  function Concat(ts: seq<string>): string
  {
    if ts == [] then [] else ts[0] + Concat(ts[1..])
  }

  lemma {:induction false} KeptAppend(a: string, b: string)
    ensures Kept(a + b) == Kept(a) + Kept(b)
  {
    if a == [] {
      assert a + b == b;
    } else {
      var head := if StartsToken(a[0]) then [a[0]] else [];
      assert (a + b)[0] == a[0];
      assert (a + b)[1..] == a[1..] + b;
      assert Kept(a + b) == head + Kept(a[1..] + b);
      KeptAppend(a[1..], b);
      assert Kept(a) == head + Kept(a[1..]);
    }
  }

  /** A token read at `i`, then tokens that keep what follows it, keep
      what follows `i`. */
  lemma KeepsToken(s: string, i: nat, t: string, rest: seq<string>)
    requires i + |t| <= |s| && s[i..i + |t|] == t
    requires Kept(Concat(rest)) == Kept(s[i + |t|..])
    ensures Kept(Concat([t] + rest)) == Kept(s[i..])
  {
    assert ([t] + rest)[1..] == rest;
    assert Concat([t] + rest) == t + Concat(rest);
    KeptAppend(t, Concat(rest));
    assert s[i..] == t + s[i + |t|..];
    KeptAppend(t, s[i + |t|..]);
  }

  /** Reading `s[i..]` loses no digit and no OPERATIONS character, and keeps
      them in their order; any other character a token carries is a `.` or
      a `:` of a numeral. */
  lemma {:induction false} TokensFromKeepOrder(s: string, i: nat)
    requires i <= |s|
    ensures Kept(Concat(TokensFrom(s, i))) == Kept(s[i..])
    decreases |s| - i
  {
    if i == |s| {
      assert s[i..] == [];
    } else if StartsToken(s[i]) {
      var t := ScanToken(s, i);
      EmitsToken(s, i);
      TokensFromKeepOrder(s, i + |t|);
      KeepsToken(s, i, t, TokensFrom(s, i + |t|));
    } else {
      assert s[i..][1..] == s[i + 1..];
      TokensFromKeepOrder(s, i + 1);
    }
  }

  /** `tokenize` keeps the digits and the OPERATIONS characters of its input,
      in their order, and drops everything else but the `.` and `:` inside
      numerals. */
  lemma TokensKeepOrder(code: string)
    ensures Kept(Concat(Tokens(code))) == Kept(code)
    ensures forall t, k :: t in Tokens(code) && 0 <= k < |t| ==> StartsToken(t[k]) || t[k] == '.' || t[k] == ':'
  {
    TokensFromKeepOrder(code, 0);
    assert code[0..] == code;
    forall t, k | t in Tokens(code) && 0 <= k < |t| ensures StartsToken(t[k]) || t[k] == '.' || t[k] == ':' {
      assert IsToken(t);
      if !(|t| == 1 && IsOperation(t[0])) {
        NumeralCharacters(t, k);
      }
    }
  }

  /** No token holds a space: whitespace only ever separates tokens. */
  lemma TokensHaveNoSpace(code: string)
    ensures forall t, k :: t in Tokens(code) && 0 <= k < |t| ==> !IsSpace(t[k])
  {
    forall t, k | t in Tokens(code) && 0 <= k < |t| ensures !IsSpace(t[k]) {
      assert IsToken(t);
      if !(|t| == 1 && IsOperation(t[0])) {
        NumeralCharacters(t, k);
      }
    }
  }

  /** Every character of a numeral is a digit, a `.` or a `:`. */
  lemma NumeralCharacters(t: string, k: nat)
    requires IsNumeral(t) && k < |t|
    ensures IsDigit(t[k]) || t[k] == '.' || t[k] == ':'
  {
    if !IsDigits(t) {
      var n :| 0 < n < |t| && IsDigits(t[..n]) && IsFraction(t[n..]);
      if k < n {
        assert t[..n][k] == t[k];
      } else if k >= n + 2 {
        assert t[n..][k - n] == t[k];
        assert t[n..][1..][k - n - 1] == t[k];
      }
    }
  }

  // Locality: the reading never looks to the left of where it is, and it
  // looks to the right of a string only through digits, `.` and `:`.

  /** A character after which no numeral can go on. */
  predicate Separates(c: char) { !IsDigit(c) && c != '.' && c != ':' }

  lemma {:induction false} ShiftDigitsEnd(p: string, b: string, k: nat)
    requires k <= |b|
    ensures DigitsEnd(p + b, |p| + k) == |p| + DigitsEnd(b, k)
    decreases |b| - k
  {
    if k < |b| {
      assert (p + b)[|p| + k] == b[k];
      ShiftDigitsEnd(p, b, k + 1);
    }
  }

  lemma ShiftNumeralEnd(p: string, b: string, k: nat)
    requires k < |b| && IsDigit(b[k])
    ensures (p + b)[|p| + k] == b[k]
    ensures NumeralEnd(p + b, |p| + k) == |p| + NumeralEnd(b, k)
  {
    var s := p + b;
    assert s[|p| + k] == b[k];
    ShiftDigitsEnd(p, b, k);
    var d := DigitsEnd(b, k);
    if d + 2 < |b| {
      assert s[|p| + d] == b[d] && s[|p| + d + 1] == b[d + 1] && s[|p| + d + 2] == b[d + 2];
      ShiftDigitsEnd(p, b, d + 2);
    }
    if d + 1 < |b| {
      assert s[|p| + d] == b[d] && s[|p| + d + 1] == b[d + 1];
      ShiftDigitsEnd(p, b, d + 1);
    }
  }

  lemma ShiftedSlice(p: string, b: string, i: nat, j: nat)
    requires i <= j <= |b|
    ensures (p + b)[|p| + i..|p| + j] == b[i..j]
  {
  }

  lemma ShiftScanToken(p: string, b: string, k: nat)
    requires k < |b| && StartsToken(b[k])
    ensures (p + b)[|p| + k] == b[k]
    ensures ScanToken(p + b, |p| + k) == ScanToken(b, k)
  {
    var s := p + b;
    assert s[|p| + k] == b[k];
    if IsDigit(b[k]) {
      ShiftNumeralEnd(p, b, k);
      ShiftedSlice(p, b, k, NumeralEnd(b, k));
    }
  }

  /** Two readings that meet the same token and agree after it agree from
      that token on: the step of `ShiftTokensFrom`. */
  lemma SameTokenStep(s: string, i: nat, b: string, k: nat)
    requires i < |s| && StartsToken(s[i]) && k < |b| && StartsToken(b[k])
    requires ScanToken(s, i) == ScanToken(b, k)
    requires TokensFrom(s, i + |ScanToken(b, k)|) == TokensFrom(b, k + |ScanToken(b, k)|)
    ensures TokensFrom(s, i) == TokensFrom(b, k)
  {
    EmitsToken(s, i);
    EmitsToken(b, k);
  }

  /** Two readings that each skip a character and agree after it agree. */
  lemma SameSkipStep(s: string, i: nat, b: string, k: nat)
    requires i < |s| && !StartsToken(s[i]) && k < |b| && !StartsToken(b[k])
    requires TokensFrom(s, i + 1) == TokensFrom(b, k + 1)
    ensures TokensFrom(s, i) == TokensFrom(b, k)
  {
    SkipsRun(s, i, i + 1);
    SkipsRun(b, k, k + 1);
  }

  /** What `p` holds does not change how `b` is read after it. */
  lemma {:induction false} ShiftTokensFrom(p: string, b: string, k: nat)
    requires k <= |b|
    ensures TokensFrom(p + b, |p| + k) == TokensFrom(b, k)
    decreases |b| - k, 1
  {
    if k < |b| {
      if StartsToken(b[k]) {
        ShiftToken(p, b, k);
      } else {
        ShiftSkip(p, b, k);
      }
    }
  }

  /** `ShiftTokensFrom` where a token starts. */
  lemma {:induction false} ShiftToken(p: string, b: string, k: nat)
    requires k < |b| && StartsToken(b[k])
    ensures TokensFrom(p + b, |p| + k) == TokensFrom(b, k)
    decreases |b| - k, 0
  {
    var n := k + |ScanToken(b, k)|;
    ShiftScanToken(p, b, k);
    ShiftTokensFrom(p, b, n);
    assert |p| + k + |ScanToken(b, k)| == |p| + n;
    SameTokenStep(p + b, |p| + k, b, k);
  }

  /** `ShiftTokensFrom` at a character that starts no token. */
  lemma {:induction false} ShiftSkip(p: string, b: string, k: nat)
    requires k < |b| && !StartsToken(b[k])
    ensures TokensFrom(p + b, |p| + k) == TokensFrom(b, k)
    decreases |b| - k, 0
  {
    ShiftedSlice(p, b, k, k + 1);
    assert (p + b)[|p| + k] == b[k] by {
      assert (p + b)[|p| + k..|p| + k + 1][0] == b[k..k + 1][0];
    }
    ShiftTokensFrom(p, b, k + 1);
    SameSkipStep(p + b, |p| + k, b, k);
  }

  /** A place to cut `a + b` that no numeral crosses: one side of the cut
      is a character after which, or before which, no numeral goes on. */
  predicate Boundary(a: string, b: string)
  {
    a == [] || b == [] || Separates(a[|a| - 1]) || Separates(b[0])
  }

  lemma {:induction false} PrefixDigitsEnd(a: string, b: string, j: nat)
    requires j < |a| && Boundary(a, b)
    ensures DigitsEnd(a + b, j) == DigitsEnd(a, j)
    decreases |a| - j
  {
    assert (a + b)[j] == a[j];
    if j + 1 < |a| {
      PrefixDigitsEnd(a, b, j + 1);
    } else if b != [] {
      assert (a + b)[j + 1] == b[0];
    }
  }

  lemma PrefixNumeralEnd(a: string, b: string, j: nat)
    requires j < |a| && IsDigit(a[j])
    requires Boundary(a, b)
    ensures (a + b)[j] == a[j]
    ensures NumeralEnd(a + b, j) == NumeralEnd(a, j)
  {
    var s := a + b;
    assert s[j] == a[j];
    PrefixDigitsEnd(a, b, j);
    var d := DigitsEnd(a, j);
    if d < |a| {
      assert s[d] == a[d];
    } else if b != [] {
      assert s[d] == b[0];
    }
    if d + 1 < |a| {
      assert s[d + 1] == a[d + 1];
      PrefixDigitsEnd(a, b, d + 1);
    } else if d + 1 == |a| && b != [] {
      assert s[d + 1] == b[0];
    }
    if d + 2 < |a| {
      assert s[d + 2] == a[d + 2];
      PrefixDigitsEnd(a, b, d + 2);
    } else if d + 2 == |a| && b != [] {
      assert s[d + 2] == b[0];
    }
  }

  lemma PrefixScanToken(a: string, b: string, j: nat)
    requires j < |a| && StartsToken(a[j])
    requires Boundary(a, b)
    ensures (a + b)[j] == a[j]
    ensures ScanToken(a + b, j) == ScanToken(a, j)
  {
    var s := a + b;
    assert s[j] == a[j];
    if IsDigit(a[j]) {
      PrefixNumeralEnd(a, b, j);
      var e := NumeralEnd(a, j);
      assert s[j..e] == a[j..e];
    }
  }

  /** One token of `a` read inside `a + b`: the step of `PrefixTokensFrom`. */
  lemma PrefixTokenStep(a: string, b: string, i: nat)
    requires i < |a| && StartsToken(a[i]) && Boundary(a, b)
    requires var n := i + |ScanToken(a, i)|;
      n <= |a| && TokensFrom(a + b, n) == TokensFrom(a, n) + TokensFrom(a + b, |a|)
    ensures TokensFrom(a + b, i) == TokensFrom(a, i) + TokensFrom(a + b, |a|)
  {
    var s := a + b;
    var t := ScanToken(a, i);
    PrefixScanToken(a, b, i);
    EmitsToken(s, i);
    EmitsToken(a, i);
    assert [t] + (TokensFrom(a, i + |t|) + TokensFrom(s, |a|))
      == [t] + TokensFrom(a, i + |t|) + TokensFrom(s, |a|);
  }

  lemma {:induction false} PrefixTokensFrom(a: string, b: string, i: nat)
    requires i <= |a|
    requires Boundary(a, b)
    ensures TokensFrom(a + b, i) == TokensFrom(a, i) + TokensFrom(a + b, |a|)
    decreases |a| - i
  {
    var s := a + b;
    if i < |a| {
      assert s[i] == a[i];
      if StartsToken(a[i]) {
        PrefixTokensFrom(a, b, i + |ScanToken(a, i)|);
        PrefixTokenStep(a, b, i);
      } else {
        assert TokensFrom(s, i) == TokensFrom(s, i + 1);
        assert TokensFrom(a, i) == TokensFrom(a, i + 1);
        PrefixTokensFrom(a, b, i + 1);
      }
    }
  }

  /** Cut where no numeral crosses, a string's tokens are the tokens of its parts. */
  lemma TokensOfConcat(a: string, b: string)
    requires Boundary(a, b)
    ensures Tokens(a + b) == Tokens(a) + Tokens(b)
  {
    PrefixTokensFrom(a, b, 0);
    ShiftTokensFrom(a, b, 0);
  }

  lemma {:induction false} DigitsEndAt(s: string, i: nat, e: nat)
    requires i <= e <= |s|
    requires forall k :: i <= k < e ==> IsDigit(s[k])
    requires e == |s| || !IsDigit(s[e])
    ensures DigitsEnd(s, i) == e
    decreases e - i
  {
    if i < e {
      DigitsEndAt(s, i + 1, e);
    }
  }

  /** Read on its own, a token is scanned whole. */
  lemma ScanWholeToken(t: string)
    requires IsToken(t)
    ensures ScanToken(t, 0) == t
  {
    if IsDigits(t) {
      DigitsEndAt(t, 0, |t|);
    } else if !(|t| == 1 && IsOperation(t[0])) {
      var n :| 0 < n < |t| && IsDigits(t[..n]) && IsFraction(t[n..]);
      ScanWholeDecimal(t, n);
    }
  }

  /** Read on its own, `digits` then a fraction is scanned whole. */
  lemma ScanWholeDecimal(t: string, n: nat)
    requires 0 < n < |t| && IsDigits(t[..n]) && IsFraction(t[n..])
    ensures ScanToken(t, 0) == t
  {
    assert t[n] == t[n..][0];
    forall k | 0 <= k < n ensures IsDigit(t[k]) {
      assert t[..n][k] == t[k];
    }
    DigitsEndAt(t, 0, n);
    if t[n] == ':' {
      assert t[n + 1] == t[n..][1];
      forall k | n + 2 <= k < |t| ensures IsDigit(t[k]) {
        assert t[n..][2..][k - n - 2] == t[k];
      }
      assert IsDigit(t[n + 2]);
      DigitsEndAt(t, n + 2, |t|);
    } else {
      forall k | n + 1 <= k < |t| ensures IsDigit(t[k]) {
        assert t[n..][1..][k - n - 1] == t[k];
      }
      assert IsDigit(t[n + 1]);
      DigitsEndAt(t, n + 1, |t|);
    }
  }

  /** A token, tokenized again, is that one token. */
  lemma TokenizesToItself(t: string)
    requires IsToken(t)
    ensures Tokens(t) == [t]
  {
    ScanWholeToken(t);
    assert TokensFrom(t, 0) == [t] + TokensFrom(t, |t|);
  }

  /** Characters at which no token starts, put in front, change nothing. */
  lemma SkipsPrefix(p: string, b: string)
    requires forall k :: 0 <= k < |p| ==> !StartsToken(p[k])
    ensures Tokens(p + b) == Tokens(b)
  {
    forall k | 0 <= k < |p| ensures !StartsToken((p + b)[k]) {
      assert (p + b)[k] == p[k];
    }
    SkipsRun(p + b, 0, |p|);
    ShiftTokensFrom(p, b, 0);
  }

  /** Characters at which no token starts, then one token: that token. */
  lemma NoiseThenToken(p: string, t: string)
    requires forall k :: 0 <= k < |p| ==> !StartsToken(p[k])
    requires IsToken(t)
    ensures Tokens(p + t) == [t]
  {
    SkipsPrefix(p, t);
    TokenizesToItself(t);
  }

  /** Skipped characters, a token, then the rest, where no numeral can run
      across the cut: that token, then the tokens of the rest. */
  lemma TokenThenRest(s: string, p: string, t: string, rest: string)
    requires s == p + t + rest
    requires forall k :: 0 <= k < |p| ==> !StartsToken(p[k])
    requires IsToken(t) && (rest == [] || Separates(t[|t| - 1]) || Separates(rest[0]))
    ensures Tokens(s) == [t] + Tokens(rest)
  {
    NoiseThenToken(p, t);
    assert (p + t)[|p + t| - 1] == t[|t| - 1];
    TokensOfConcat(p + t, rest);
  }

  /** Characters at which no token starts yield no token at all. */
  lemma OnlyNoise(p: string)
    requires forall k :: 0 <= k < |p| ==> !StartsToken(p[k])
    ensures Tokens(p) == []
  {
    SkipsPrefix(p, []);
    assert p + [] == p;
  }

  /** `d.f` is a numeral. */
  lemma DecimalIsToken(d: string, f: string)
    requires IsDigits(d) && IsDigits(f)
    ensures IsToken(d + "." + f)
  {
    var t := d + "." + f;
    assert t[..|d|] == d;
    assert t[|d|..][1..] == f;
    assert IsFraction(t[|d|..]);
  }

  /** Characters none of which starts a token: the regex skips them all. */
  predicate Skipped(p: string)
  {
    forall k :: 0 <= k < |p| ==> !StartsToken(p[k])
  }

  /** A stretch of input read as skipped characters followed by a token. */
  datatype Piece = Piece(skipped: string, token: string)

  /** The text of `ps[i..]`. */
  function Spelled(ps: seq<Piece>, i: nat): string
    requires i <= |ps|
    decreases |ps| - i
  {
    if i == |ps| then [] else ps[i].skipped + ps[i].token + Spelled(ps, i + 1)
  }

  /** The tokens of `ps[i..]`. */
  function Emitted(ps: seq<Piece>, i: nat): seq<string>
    requires i <= |ps|
    decreases |ps| - i
  {
    if i == |ps| then [] else [ps[i].token] + Emitted(ps, i + 1)
  }

  /** What the text goes on with after `ps[..i]`, up to its next token. */
  function Following(ps: seq<Piece>, i: nat, tail: string): string
    requires i <= |ps|
  {
    if i == |ps| then tail else ps[i].skipped + ps[i].token
  }

  /** Each piece is skipped characters and a token that no numeral can run on
      from, and the text ends with skipped characters `tail`. */
  predicate Delimited(ps: seq<Piece>, i: nat, tail: string)
    requires i <= |ps|
    decreases |ps| - i
  {
    if i == |ps| then Skipped(tail)
    else
      var t := ps[i].token;
      var next := Following(ps, i + 1, tail);
      Skipped(ps[i].skipped) && IsToken(t)
      && (next == [] || Separates(t[|t| - 1]) || Separates(next[0]))
      && Delimited(ps, i + 1, tail)
  }

  lemma FollowingStarts(ps: seq<Piece>, i: nat, tail: string)
    requires i <= |ps| && Delimited(ps, i, tail)
    ensures var s := Spelled(ps, i) + tail;
      (s == [] <==> Following(ps, i, tail) == []) && (s != [] ==> s[0] == Following(ps, i, tail)[0])
  {
    if i < |ps| {
      assert IsToken(ps[i].token);
      FirstOfAppend(ps[i].skipped + ps[i].token, Spelled(ps, i + 1), tail);
    }
  }

  lemma FirstOfAppend(x: string, y: string, z: string)
    requires x != []
    ensures x + y + z != [] && (x + y + z)[0] == x[0]
  {
  }

  /** Text laid out as delimited pieces tokenizes to exactly their tokens,
      in order: whatever else is in it is dropped. */
  lemma {:induction false} PiecesTokenize(ps: seq<Piece>, i: nat, tail: string)
    requires i <= |ps| && Delimited(ps, i, tail)
    ensures Tokens(Spelled(ps, i) + tail) == Emitted(ps, i)
    decreases |ps| - i
  {
    if i == |ps| {
      OnlyNoise(tail);
      assert Spelled(ps, i) + tail == tail;
    } else {
      var rest := Spelled(ps, i + 1) + tail;
      PiecesTokenize(ps, i + 1, tail);
      FollowingStarts(ps, i + 1, tail);
      TokenThenRest(Spelled(ps, i) + tail, ps[i].skipped, ps[i].token, rest);
    }
  }

  /** The tokens written out with a space after each. */
  function Spaced(ts: seq<string>): string
  {
    if ts == [] then [] else ts[0] + " " + Spaced(ts[1..])
  }

  /** Tokens written out with spaces tokenize back to themselves. */
  lemma {:induction false} SpacedTokensRoundTrip(ts: seq<string>)
    requires forall t :: t in ts ==> IsToken(t)
    ensures Tokens(Spaced(ts)) == ts
  {
    if ts != [] {
      var rest := " " + Spaced(ts[1..]);
      assert Spaced(ts) == ts[0] + rest;
      TokensOfConcat(ts[0], rest);
      TokenizesToItself(ts[0]);
      SkipsPrefix(" ", Spaced(ts[1..]));
      SpacedTokensRoundTrip(ts[1..]);
    }
  }

  /** Tokenizing is idempotent: the tokens of a string, spaced out and
      tokenized again, are the same tokens. */
  lemma RetokenizeIsIdentity(code: string)
    ensures Tokens(Spaced(Tokens(code))) == Tokens(code)
  {
    SpacedTokensRoundTrip(Tokens(code));
  }

  /** `tokenize`: call `exec` until it returns null, pushing group 1 of each match. */
  method Tokenize(code: string) returns (results: seq<string>)
    ensures results == Tokens(code)
    ensures forall t :: t in results ==> IsToken(t)
  {
    results := [];
    var lastIndex := 0;
    var found := Exec(code, lastIndex);
    while found.Some?
      invariant lastIndex <= |code|
      invariant found == Exec(code, lastIndex)
      invariant results + TokensFrom(code, lastIndex) == Tokens(code)
      decreases |code| - lastIndex
    {
      ExecFindsNextToken(code, lastIndex);
      results := results + [found.value.text];
      lastIndex := found.value.lastIndex;
      found := Exec(code, lastIndex);
    }
    ExecFindsNextToken(code, lastIndex);
  }
}
