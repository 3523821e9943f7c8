/**
 * Numbers as ExpressionResolver.java sees them.
 *
 * Java works on `double`; this model works on exact reals.  A decimal literal
 * accepted by NUMBER or SIGNED_NUMBER parses to the real it denotes (what
 * `Double.parseDouble` would round to a double), `+`, `-` and `*` are exact,
 * and the operations whose double behaviour matters most -- `/` (infinity and
 * NaN on a zero divisor), `%` (a floating remainder) and the `java.lang.Math`
 * functions reached by reflection -- are parameters of the model.
 */
module Numbers {
  import opened RegexPatterns

  /** The arithmetic the evaluator borrows from the platform. */
  datatype Numerics = Numerics(
    divide: (real, real) -> real,     // double `/`
    remainder: (real, real) -> real,  // double `%`
    call: (string, real) -> real)     // `Math.<name>(double)`

  /** The value of one ASCII digit. */
  function DigitValue(c: char): (d: nat)
    requires IsDigit(c)
    ensures d < 10
  {
    (c as int) - ('0' as int)
  }

  predicate AllDigits(d: string) {
    forall i | 0 <= i < |d| :: IsDigit(d[i])
  }

  function Pow10(n: nat): (p: nat)
    ensures p >= 1
  {
    if n == 0 then 1 else 10 * Pow10(n - 1)
  }

  /** The value of a string of decimal digits, most significant first. */
  function DigitsValue(d: string): nat
    requires AllDigits(d)
  {
    if d == [] then 0 else 10 * DigitsValue(d[..|d| - 1]) + DigitValue(d[|d| - 1])
  }

  /** `n` written in decimal without leading zeros (`0` is written `"0"`). */
  function DecimalText(n: nat): (t: string)
    ensures |t| > 0 && AllDigits(t)
  {
    var last := ['0' + (n % 10) as char];
    if n < 10 then last else DecimalText(n / 10) + last
  }

  /** Digits after the point: the digit string `f` read as a fraction. */
  function FractionValue(f: string): real
    requires AllDigits(f)
  {
    (DigitsValue(f) as real) / (Pow10(|f|) as real)
  }

  /**
   * `Double.parseDouble` on a text of SIGNED_NUMBER, without rounding: an
   * optional `-`, the integer digits, and the digits after an optional `.`.
   */
  function ParseNumber(t: string): (r: real)
    requires IsSignedNumberText(t)
    ensures t[0] == '-' ==> r <= 0.0
    ensures t[0] != '-' ==> 0.0 <= r
  {
    if t[0] == '-' then -ParseUnsigned(t[1..]) else ParseUnsigned(t)
  }

  /** `Double.parseDouble` on a text of NUMBER: never negative. */
  function ParseUnsigned(t: string): (r: real)
    requires IsNumberText(t)
    ensures 0.0 <= r
  {
    var k := RunEnd(t, 0, Digits);
    RunEndStops(t, 0, Digits);
    if k == |t| then DigitsValue(t) as real
    else DigitsValue(t[..k]) as real + FractionValue(t[k + 1..])
  }

  // ---------------------------------------------------------------------------
  // What a literal means

  /** A string of `n` digits denotes less than 10^n. */
  lemma {:induction false} DigitsValueBelow(d: string)
    requires AllDigits(d)
    ensures DigitsValue(d) < Pow10(|d|)
  {
    if d != [] {
      DigitsValueBelow(d[..|d| - 1]);
    }
  }

  /** The digits after the point add less than one. */
  lemma FractionBelowOne(f: string)
    requires AllDigits(f)
    ensures 0.0 <= FractionValue(f) < 1.0
  {
    DigitsValueBelow(f);
    QuotientBelowOne(DigitsValue(f) as real, Pow10(|f|) as real);
  }

  lemma QuotientBelowOne(a: real, b: real)
    requires 0.0 <= a < b
    ensures 0.0 <= a / b < 1.0
  {
    assert a / b * b == a;
  }

  /** Appending one digit multiplies by ten and adds it. */
  lemma DigitsValueSnoc(d: string, c: char)
    requires AllDigits(d) && IsDigit(c)
    ensures AllDigits(d + [c])
    ensures DigitsValue(d + [c]) == 10 * DigitsValue(d) + DigitValue(c)
  {
    assert (d + [c])[..|d|] == d;
  }

  /** Reading back the decimal text of a natural number gives that number. */
  lemma {:induction false} DecimalTextRoundTrip(n: nat)
    ensures DigitsValue(DecimalText(n)) == n
    decreases n
  {
    var last := '0' + (n % 10) as char;
    assert DigitValue(last) == n % 10;
    if n < 10 {
      assert DecimalText(n) == [last];
    } else {
      DecimalTextRoundTrip(n / 10);
      DigitsValueSnoc(DecimalText(n / 10), last);
    }
  }

  /**
   * A literal lies between its integer part and the next integer: the
   * integer part is the digits before the point and the rest is a fraction.
   */
  lemma ParseUnsignedParts(t: string, k: nat)
    requires IsNumberText(t)
    requires k <= |t| && AllDigits(t[..k]) && (k == |t| || t[k] == '.')
    ensures DigitsValue(t[..k]) as real <= ParseUnsigned(t) < DigitsValue(t[..k]) as real + 1.0
  {
    RunEndStops(t, 0, Digits);
    var e := RunEnd(t, 0, Digits);
    assert forall i | 0 <= i < k :: t[..k][i] == t[i];
    assert e == k;
    if k == |t| {
      assert t[..k] == t;
    } else {
      FractionBelowOne(t[k + 1..]);
    }
  }

  /** A whole number written in decimal parses to itself. */
  lemma ParseDecimalText(n: nat)
    ensures IsNumberText(DecimalText(n))
    ensures ParseUnsigned(DecimalText(n)) == n as real
  {
    var t := DecimalText(n);
    assert forall i | 0 <= i < |t| :: t[i] != '.';
    DecimalTextRoundTrip(n);
    RunEndSkip(t, 0, |t|, Digits);
  }

  /** Writing the digits of `b` after those of `a` shifts `a` by |b| places. */
  lemma {:induction false} DigitsValueAppend(a: string, b: string)
    requires AllDigits(a) && AllDigits(b)
    ensures AllDigits(a + b)
    ensures DigitsValue(a + b) == DigitsValue(a) * Pow10(|b|) + DigitsValue(b)
    decreases |b|
  {
    if b == [] {
      assert a + b == a;
    } else {
      var front, c := b[..|b| - 1], b[|b| - 1];
      DigitsValueAppend(a, front);
      assert a + b == (a + front) + [c];
      assert front + [c] == b;
      DigitsValueSnoc(a + front, c);
      DigitsValueSnoc(front, c);
      assert Pow10(|b|) == 10 * Pow10(|front|);
      ShiftDigit(DigitsValue(a), Pow10(|front|), DigitsValue(front), DigitValue(c));
    }
  }

  lemma ShiftDigit(x: int, p: int, y: int, c: int)
    ensures 10 * (x * p + y) + c == x * (10 * p) + (10 * y + c)
  {
  }

  /** A literal without a point parses to the value of its digits. */
  lemma ParseUnsignedWhole(a: string)
    requires |a| > 0 && AllDigits(a)
    ensures IsNumberText(a)
    ensures ParseUnsigned(a) == DigitsValue(a) as real
  {
    DigitsDotDigitsIsNumber(a, |a|);
    RunEndSkip(a, 0, |a|, Digits);
  }

  /**
   * A literal `a.b` parses to the digits of `a` and `b` read as one whole
   * number, divided by ten to the number of digits after the point.
   */
  lemma {:induction false} ParseUnsignedScaled(a: string, b: string)
    requires |a| > 0 && AllDigits(a) && AllDigits(b)
    ensures IsNumberText(a + "." + b)
    ensures ParseUnsigned(a + "." + b) == (DigitsValue(a + b) as real) / (Pow10(|b|) as real)
  {
    var t := a + "." + b;
    assert forall i | 0 <= i < |t| && i != |a| :: IsDigit(t[i]) by {
      forall i | 0 <= i < |t| && i != |a|
        ensures IsDigit(t[i])
      {
        if i < |a| { assert t[i] == a[i]; } else { assert t[i] == b[i - |a| - 1]; }
      }
    }
    ParseUnsignedAtPoint(t, |a|);
    assert t[..|a|] == a && t[|a| + 1..] == b;
    assert ParseUnsigned(t) == DigitsValue(a) as real + FractionValue(b);
    DigitsValueAppend(a, b);
    ScaledValue(ParseUnsigned(a + "." + b), DigitsValue(a), DigitsValue(b), Pow10(|b|), DigitsValue(a + b));
  }

  /** `whole + frac / p` is `(whole * p + frac) / p`. */
  lemma ScaledValue(x: real, whole: nat, frac: nat, p: nat, total: nat)
    requires p > 0 && x == whole as real + (frac as real) / (p as real) && total == whole * p + frac
    ensures x == (total as real) / (p as real)
  {
    ScaleBack(whole as real, frac as real, p as real);
    CastProduct(whole, p);
    assert x * (p as real) == total as real;
  }

  /** A literal with a point at `k` is its integer digits plus the fraction. */
  lemma ParseUnsignedAtPoint(t: string, k: nat)
    requires 0 < k < |t| && t[k] == '.'
    requires forall i | 0 <= i < |t| && i != k :: IsDigit(t[i])
    ensures IsNumberText(t) && AllDigits(t[..k]) && AllDigits(t[k + 1..])
    ensures ParseUnsigned(t) == DigitsValue(t[..k]) as real + FractionValue(t[k + 1..])
  {
    DigitsDotDigitsIsNumber(t, k);
    RunEndSkip(t, 0, k, Digits);
    assert RunEnd(t, k, Digits) == k;
  }

  lemma ScaleBack(whole: real, frac: real, p: real)
    requires p > 0.0
    ensures (whole + frac / p) * p == whole * p + frac
  {
    assert frac / p * p == frac;
  }

  lemma CastProduct(x: int, y: int)
    ensures (x * y) as real == (x as real) * (y as real)
  {
  }

  /** `Double.parseDouble("2.5")` is two and a half. */
  lemma ParseTwoAndAHalf()
    ensures ParseUnsigned("2.5") == 2.5
  {
    ParseUnsignedScaled("2", "5");
    assert "2" + "." + "5" == "2.5";
    assert "2" + "5" == "25";
    assert DigitsValue("25") == 25 by {
      assert "25"[..1] == "2";
    }
  }

  /** A leading `-` negates. */
  lemma ParseNegative(t: string)
    requires IsNumberText(t)
    ensures IsSignedNumberText(['-'] + t)
    ensures ParseNumber(['-'] + t) == -ParseUnsigned(t)
  {
    assert (['-'] + t)[1..] == t;
  }
}
