/** Decimals as real numbers: what numeric equality and order mean. */
module NumericValue {
  import opened Numerals
  import opened JsonValues

  /** 10^e. */
  function RealPow10(e: int): (p: real)
    ensures p > 0.0
    decreases if e < 0 then -e else e
  {
    if e == 0 then 1.0 else if e > 0 then 10.0 * RealPow10(e - 1) else RealPow10(e + 1) / 10.0
  }

  /** The real number mantissa * 10^exp. */
  function RealValue(n: Number): real {
    n.mantissa as real * RealPow10(n.exp)
  }

  lemma PowStep(e: int)
    ensures RealPow10(e + 1) == 10.0 * RealPow10(e)
  {
  }

  lemma {:induction false} PowShift(e: int, k: nat)
    ensures RealPow10(e + k) == Pow10(k) as real * RealPow10(e)
    decreases k
  {
    if k > 0 {
      PowShift(e, k - 1);
      PowStep(e + k - 1);
      var p, q := Pow10(k - 1) as real, RealPow10(e);
      assert Pow10(k) as real == 10.0 * p;
      assert 10.0 * (p * q) == (10.0 * p) * q;
    }
  }

  lemma {:induction false} RealProduct(x: int, y: nat)
    ensures (x * y) as real == x as real * y as real
    decreases y
  {
    if y > 0 {
      RealProduct(x, y - 1);
      assert x * y == x * (y - 1) + x;
      assert x as real * y as real == x as real * (y - 1) as real + x as real;
    }
  }

  lemma Associative(m: real, p: real, q: real)
    ensures m * (p * q) == (m * p) * q
  {
  }

  lemma ScaledValue(n: Number, e: int)
    requires e <= n.exp
    ensures RealValue(n) == ScaledTo(n, e) as real * RealPow10(e)
  {
    hide Pow10, RealPow10;
    PowShift(e, n.exp - e);
    RealProduct(n.mantissa, Pow10(n.exp - e));
    Associative(n.mantissa as real, Pow10(n.exp - e) as real, RealPow10(e));
  }

  lemma ScaleOrder(x: int, y: int, p: real)
    requires p > 0.0
    ensures x < y <==> x as real * p < y as real * p
    ensures x == y <==> x as real * p == y as real * p
  {
    if x < y { assert (y as real - x as real) * p > 0.0; }
    if y < x { assert (x as real - y as real) * p > 0.0; }
  }

  /** Comparing scaled mantissas compares real values. */
  lemma OrderIsRealOrder(a: Number, b: Number)
    ensures SameNumber(a, b) <==> RealValue(a) == RealValue(b)
    ensures var e := if a.exp <= b.exp then a.exp else b.exp;
      ScaledTo(a, e) < ScaledTo(b, e) <==> RealValue(a) < RealValue(b)
  {
    hide RealValue, RealPow10, ScaledTo;
    var e := if a.exp <= b.exp then a.exp else b.exp;
    ScaledValue(a, e);
    ScaledValue(b, e);
    ScaleOrder(ScaledTo(a, e), ScaledTo(b, e), RealPow10(e));
  }

  /** A finite float's value. */
  function ValueOf(f: Float): real
    requires f.Finite()
  {
    RealValue(FloatNumber(f))
  }

  /** The normal form of an integer denotes that integer. */
  lemma NormalValue(n: int)
    ensures ValueOf(Normalize(n, 0)) == n as real
  {
    if n == 0 {
      assert Normalize(0, 0) == Zero(false);
    } else {
      var k := NormalizeKeepsValue(n, 0);
      ScaledInteger(FloatNumber(Normalize(n, 0)), k);
      hide RealValue, Normalize, Pow10;
    }
  }

  lemma ScaledInteger(a: Number, k: nat)
    requires a.exp == k
    ensures RealValue(a) == (a.mantissa * Pow10(k)) as real
  {
    assert RealPow10(0) == 1.0;
    PowShift(0, k);
    RealProduct(a.mantissa, Pow10(k));
    hide RealPow10, Pow10;
  }
}
