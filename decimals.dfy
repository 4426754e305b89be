/** Exact decimal numbers and the precision rule of a fixed-point column
    (`max_digits` total digits, `decimal_places` digits after the point). */
module Decimals {

  /** The number unscaled × 10^(-scale): a decimal with coefficient |unscaled|,
      the sign of unscaled and exponent -scale. Never a binary float. */
  datatype Decimal = Decimal(unscaled: int, scale: int)

  function Abs(x: int): nat
  {
    if x < 0 then -x else x
  }

  function Pow10(n: nat): (r: nat)
    ensures r >= 1
  {
    if n == 0 then 1 else 10 * Pow10(n - 1)
  }

  lemma {:induction false} Pow10Add(a: nat, b: nat)
    ensures Pow10(a + b) == Pow10(a) * Pow10(b)
  {
    if a > 0 {
      Pow10Add(a - 1, b);
      assert Pow10(a + b) == 10 * Pow10(a - 1 + b);
    }
  }

  lemma {:induction false} Pow10Monotone(a: nat, b: nat)
    requires a <= b
    ensures Pow10(a) <= Pow10(b)
  {
    if a < b {
      Pow10Monotone(a, b - 1);
    }
  }

  /** Length of the digit tuple of a coefficient; zero has the single digit 0.
      The result is the one k with 10^(k-1) <= n < 10^k (for n > 0). */
  function Digits(n: nat): (r: nat)
    ensures 1 <= r
    ensures n < Pow10(r)
    ensures r > 1 ==> Pow10(r - 1) <= n
  {
    if n < 10 then 1
    else
      var r := 1 + Digits(n / 10);
      assert n < 10 * (n / 10 + 1);
      r
  }

  /** A coefficient below 10^k has at most k digits (and always at least one). */
  lemma DigitsAtMost(n: nat, k: nat)
    requires 1 <= k && n < Pow10(k)
    ensures Digits(n) <= k
  {
    var r := Digits(n);
    if r > k {
      Pow10Monotone(k, r - 1);
    }
  }

  /** The digit counts a decimal field checks, as computed from the digit tuple and
      exponent: total digits, digits before the point and digits after it. */
  datatype Shape = Shape(total: nat, whole: nat, places: nat)

  function ShapeOf(d: Decimal): (s: Shape)
    ensures d.scale > 0 ==> s.places == d.scale
    ensures d.scale <= 0 ==> s.places == 0
    ensures s.whole + s.places <= s.total
  {
    var n := Digits(Abs(d.unscaled));
    if d.scale <= 0 then Shape(n - d.scale, n - d.scale, 0)
    else if n > d.scale then Shape(n, n - d.scale, d.scale)
    else Shape(d.scale, 0, d.scale)
  }

  /** The three checks of a decimal field with the given precision, in the order
      they are made: too many digits, too many decimal places, too many whole digits. */
  predicate WithinPrecision(d: Decimal, maxDigits: nat, places: nat)
    requires places <= maxDigits
    ensures WithinPrecision(d, maxDigits, places) ==> d.scale <= places
  {
    var s := ShapeOf(d);
    s.total <= maxDigits && s.places <= places && s.whole <= maxDigits - places
  }

  /** d rewritten with exactly `places` digits after the point (padding with zeros). */
  function Quantize(d: Decimal, places: nat): (q: Decimal)
    requires d.scale <= places
    ensures q.scale == places
    ensures SameValue(d, q)
  {
    Decimal(d.unscaled * Pow10(places - d.scale), places)
  }

  /** d scaled to exponent -k: the integer d × 10^k. */
  function ScaledTo(d: Decimal, k: int): int
    requires d.scale <= k
  {
    d.unscaled * Pow10(k - d.scale)
  }

  /** a and b denote the same number (possibly with different trailing zeros). */
  predicate SameValue(a: Decimal, b: Decimal)
  {
    var k := if a.scale < b.scale then b.scale else a.scale;
    ScaledTo(a, k) == ScaledTo(b, k)
  }

  /** The value as stored in a numeric(maxDigits, places) column: exactly `places`
      decimal digits and at most maxDigits digits in all. */
  predicate Fits(d: Decimal, maxDigits: nat, places: nat)
  {
    d.scale == places && Abs(d.unscaled) < Pow10(maxDigits)
  }

  lemma MulStrict(x: nat, y: nat, p: nat)
    requires x < y && p >= 1
    ensures x * p < y * p
  {
  }

  /** A decimal that passes the precision checks, once quantized, fits the column. */
  lemma {:induction false} QuantizeFits(d: Decimal, maxDigits: nat, places: nat)
    requires places <= maxDigits
    requires WithinPrecision(d, maxDigits, places)
    ensures d.scale <= places
    ensures Fits(Quantize(d, places), maxDigits, places)
  {
    var n := Digits(Abs(d.unscaled));
    var e: nat := places - d.scale;
    // Every branch of ShapeOf leaves at most maxDigits digits once the
    // places - scale padding zeros are appended.
    assert n + e <= maxDigits;
    var q := Quantize(d, places);
    assert Abs(q.unscaled) == Abs(d.unscaled) * Pow10(e);
    MulStrict(Abs(d.unscaled), Pow10(n), Pow10(e));
    Pow10Add(n, e);
    Pow10Monotone(n + e, maxDigits);
  }

  /** A value that fits the column passes the precision checks and is its own quantization:
      what is stored is accepted again unchanged. */
  lemma FitsWithinPrecision(d: Decimal, maxDigits: nat, places: nat)
    requires 1 <= maxDigits && places <= maxDigits
    requires Fits(d, maxDigits, places)
    ensures WithinPrecision(d, maxDigits, places)
    ensures Quantize(d, places) == d
  {
    DigitsAtMost(Abs(d.unscaled), maxDigits);
    var n := Digits(Abs(d.unscaled));
    if places > 0 && n > places {
      // n digits with `places` of them after the point: n - places whole digits.
      assert n <= maxDigits;
    }
  }

  /** A whole number with at most maxDigits - places digits passes the checks. */
  lemma WholeNumberWithinPrecision(i: int, maxDigits: nat, places: nat)
    requires places < maxDigits && Abs(i) < Pow10(maxDigits - places)
    ensures WithinPrecision(Decimal(i, 0), maxDigits, places)
  {
    DigitsAtMost(Abs(i), maxDigits - places);
  }

  /** 600000.0001 and 6000.545 have more than two decimal places, and so fail a
      (19, 2) field; 12500.00 passes it. */
  lemma PrecisionExamples()
    ensures !WithinPrecision(Decimal(6000000001, 4), 19, 2)
    ensures !WithinPrecision(Decimal(6000545, 3), 19, 2)
    ensures WithinPrecision(Decimal(1250000, 2), 19, 2)
  {
    assert Pow10(7) == 10000000;
    DigitsAtMost(1250000, 7);
  }
}
