/** Reading numerals: the part of JavaScript's `parseFloat` that the
    calculator relies on, and `isNumber`, which asks whether it gives a
    number at all. */
module Numbers {
  import opened Syntax
  import opened Lexer

  function DigitValue(c: char): (v: nat)
    requires IsDigit(c)
    ensures v < 10
  {
    (c as int) - ('0' as int)
  }

  /** The value of a run of decimal digits, most significant first. */
  function DigitsValue(d: string): nat
    requires forall k :: 0 <= k < |d| ==> IsDigit(d[k])
  {
    if d == [] then 0 else DigitsValue(d[..|d| - 1]) * 10 + DigitValue(d[|d| - 1])
  }

  function Pow10(n: nat): (r: nat)
    ensures r >= 1
  {
    if n == 0 then 1 else 10 * Pow10(n - 1)
  }

  /** The value written `whole.frac` when `frac` has `places` digits. */
  function Decimal(whole: nat, frac: nat, places: nat): real
  {
    whole as real + (frac as real) / (Pow10(places) as real)
  }

  /** `parseFloat(t)`, None standing for NaN: the longest prefix of the
      form digits, then optionally `.` and digits, read as a decimal. */
  function ParseFloat(t: string): (r: Option<real>)
    ensures r.Some? <==> t != [] && IsDigit(t[0])
    ensures r.Some? ==> r.value >= 0.0
  {
    if t == [] || !IsDigit(t[0]) then None
    else
      var k := DigitsEnd(t, 0);
      if k < |t| && t[k] == '.' then
        var e := DigitsEnd(t, k + 1);
        Some(Decimal(DigitsValue(t[..k]), DigitsValue(t[k + 1..e]), e - k - 1))
      else
        Some(DigitsValue(t[..k]) as real)
  }

  /** `isNumber(token)`: the token starts with a digit, which is when
      `parseFloat` does not give NaN (see `IsNumberIsParsable`). Past the
      last token the parser peeks `undefined`, for which it is false. */
  predicate IsNumber(token: Option<string>)
  {
    token.Some? && token.value != [] && IsDigit(token.value[0])
  }

  /** `isNumber(n)` is `!isNaN(parseFloat(n))`. */
  lemma IsNumberIsParsable(token: Option<string>)
    ensures IsNumber(token) <==> token.Some? && ParseFloat(token.value).Some?
  {
  }

  /** Among the tokenizer's tokens, those `isNumber` accepts are exactly the
      numerals; the OPERATIONS characters are not numbers. */
  lemma NumbersAreNumerals(t: string)
    requires IsToken(t)
    ensures IsNumber(Some(t)) <==> IsNumeral(t)
  {
    if IsNumeral(t) {
      if !IsDigits(t) {
        var n :| 0 < n < |t| && IsDigits(t[..n]) && IsFraction(t[n..]);
        assert t[..n][0] == t[0];
      }
    }
  }

  /** A run of digits reads as its decimal value. */
  lemma ParseDigits(d: string)
    requires IsDigits(d)
    ensures ParseFloat(d) == Some(DigitsValue(d) as real)
  {
    DigitsEndAt(d, 0, |d|);
    assert d[..|d|] == d;
  }

  /** Where the runs of digits of `d.f` end, and what they are. */
  lemma DecimalLayout(d: string, f: string)
    requires IsDigits(d) && IsDigits(f)
    ensures var t := d + "." + f;
      |t| == |d| + 1 + |f| && IsDigit(t[0]) && t[|d|] == '.'
      && DigitsEnd(t, 0) == |d| && DigitsEnd(t, |d| + 1) == |t|
      && t[..|d|] == d && t[|d| + 1..|t|] == f
  {
    var t := d + "." + f;
    assert DigitsEnd(t, 0) == |d| by {
      forall k | 0 <= k < |d| ensures IsDigit(t[k]) {
        assert t[k] == d[k];
      }
      assert t[|d|] == '.';
      DigitsEndAt(t, 0, |d|);
    }
    assert DigitsEnd(t, |d| + 1) == |t| by {
      forall k | |d| + 1 <= k < |t| ensures IsDigit(t[k]) {
        assert t[k] == f[k - |d| - 1];
      }
      DigitsEndAt(t, |d| + 1, |t|);
    }
    assert t[0] == d[0];
    assert t[..|d|] == d && t[|d| + 1..|t|] == f;
  }

  /** `d.f` reads as `d + f / 10^|f|`: the number written in decimal. */
  lemma ParseDecimal(d: string, f: string)
    requires IsDigits(d) && IsDigits(f)
    ensures ParseFloat(d + "." + f) == Some(Decimal(DigitsValue(d), DigitsValue(f), |f|))
  {
    var t := d + "." + f;
    DecimalLayout(d, f);
    ParseFloatWithFraction(t, |d|, |t|);
  }

  lemma ParseFloatWithFraction(t: string, k: nat, e: nat)
    requires 0 < k < |t| && IsDigit(t[0]) && t[k] == '.'
    requires DigitsEnd(t, 0) == k && DigitsEnd(t, k + 1) == e
    ensures ParseFloat(t) == Some(Decimal(DigitsValue(t[..k]), DigitsValue(t[k + 1..e]), e - k - 1))
  {
  }

  /** The tokenizer keeps `d:.f` as one numeral, but `parseFloat` stops at
      the colon: the fraction is lost and the value is that of `d`. */
  lemma ParseColonDecimal(d: string, f: string)
    requires IsDigits(d) && IsDigits(f)
    ensures IsNumeral(d + ":." + f)
    ensures ParseFloat(d + ":." + f) == Some(DigitsValue(d) as real)
  {
    var t := d + ":." + f;
    forall k | 0 <= k < |d| ensures IsDigit(t[k]) {
      assert t[k] == d[k];
    }
    assert t[|d|] == ':';
    DigitsEndAt(t, 0, |d|);
    assert t[..|d|] == d;
    assert t[|d|..][2..] == f;
    assert IsFraction(t[|d|..]);
  }

  /** The decimal digits of `n`, as JavaScript writes a whole number. */
  function DecimalString(n: nat): (d: string)
    ensures IsDigits(d)
  {
    if n < 10 then [('0' as int + n) as char]
    else DecimalString(n / 10) + [('0' as int + n % 10) as char]
  }

  lemma {:induction false} DecimalStringValue(n: nat)
    ensures DigitsValue(DecimalString(n)) == n
  {
    var d := DecimalString(n);
    if n >= 10 {
      DecimalStringValue(n / 10);
      assert d[..|d| - 1] == DecimalString(n / 10);
    }
  }

  /** Every whole number written in decimal reads back as itself. */
  lemma ParseDecimalString(n: nat)
    ensures ParseFloat(DecimalString(n)) == Some(n as real)
  {
    ParseDigits(DecimalString(n));
    DecimalStringValue(n);
  }
}
