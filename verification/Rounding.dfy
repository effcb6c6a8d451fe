/** What the conversion of integers promises: the nearest double, overflow at a fixed bound, the fewest digits. */
module Rounding {
  import opened Numerals
  import opened Doubles
  import NumberNotation

  // ---------- multiples ----------

  lemma TimesGrows(a: nat, b: nat, u: nat)
    requires a <= b
    ensures a * u <= b * u
  {
  }

  lemma OneMore(q: nat, u: nat)
    ensures (q + 1) * u == q * u + u
  {
  }

  /** n lies between two multiples of u. */
  lemma Between(n: nat, u: nat)
    requires u > 0
    ensures n / u * u == n - n % u && (n / u + 1) * u == n - n % u + u && n % u < u
  {
    OneMore(n / u, u);
  }

  lemma Unique(q: nat, r: nat, q': nat, r': nat, u: nat)
    requires r < u && r' < u && q * u + r == q' * u + r'
    ensures q == q' && r == r'
  {
    OneMore(q, u);
    OneMore(q', u);
    if q < q' {
      TimesGrows(q + 1, q', u);
    } else if q' < q {
      TimesGrows(q' + 1, q, u);
    }
  }

  /** The quotient is the only one whose multiples surround n. */
  lemma QuotientIs(n: nat, u: nat, q: nat)
    requires u > 0 && q * u <= n < q * u + u
    ensures n / u == q && n % u == n - q * u
  {
    Between(n, u);
    Unique(n / u, n % u, q, n - q * u, u);
  }

  lemma MultipleStays(q: nat, u: nat)
    requires u > 0
    ensures (q * u) % u == 0 && RoundTo(q * u, u) == q * u
  {
    QuotientIs(q * u, u, q);
  }

  /** Rounding goes to one of the two, the nearer one; of two equally near ones to the even multiple. */
  lemma RoundsToNearer(n: nat, u: nat)
    requires u > 0
    ensures var q, r := n / u, RoundTo(n, u);
      && q * u <= n < (q + 1) * u && (r == q * u || r == (q + 1) * u)
      && (r == q * u <==> 2 * (n - q * u) < u || (2 * (n - q * u) == u && q % 2 == 0))
  {
    Between(n, u);
  }

  // ---------- the spacing of doubles ----------

  lemma {:induction false} SpacingIs(n: nat, i: nat, k: nat)
    requires i <= k && n < PRECISION * Pow2(k) && (i < k ==> PRECISION * Pow2(k - 1) <= n)
    ensures Spacing(n, Pow2(i)) == Pow2(k)
    decreases k - i
  {
    if i < k {
      Pow2Grows(i, k - 1);
      SpacingIs(n, i + 1, k);
    }
  }

  lemma {:induction false} SpacingAtLeast(n: nat, i: nat, k: nat)
    requires i <= k + 1 && PRECISION * Pow2(k) <= n
    ensures Spacing(n, Pow2(i)) >= Pow2(k + 1)
    decreases k + 1 - i
  {
    if i <= k {
      Pow2Grows(i, k);
      SpacingAtLeast(n, i + 1, k);
    }
  }

  /** A number of at least half the range of a spacing has it, or a multiple of it. */
  lemma {:induction false} SpacingFollows(n: nat, m: nat, unit: nat)
    requires unit > 0 && PRECISION * Spacing(n, unit) <= 2 * m
    ensures Spacing(m, unit) == Spacing(m, Spacing(n, unit))
    decreases if n > unit then n - unit else 0
  {
    if n >= PRECISION * unit {
      SpacingFollows(n, m, 2 * unit);
    }
  }

  lemma {:induction false} SpacingMultiple(n: nat, unit: nat) returns (w: nat)
    requires unit > 0
    ensures Spacing(n, unit) == w * unit
    decreases if n > unit then n - unit else 0
  {
    if n < PRECISION * unit {
      w := 1;
    } else {
      var v := SpacingMultiple(n, 2 * unit);
      w := 2 * v;
      Regroup(v, unit);
    }
  }

  lemma Regroup(v: nat, unit: nat)
    ensures v * (2 * unit) == (2 * v) * unit
  {
  }

  lemma QuotientRange(n: nat, u: nat)
    requires u > 0 && n < PRECISION * u
    ensures n / u < PRECISION
    ensures HALF_PRECISION * u <= n ==> HALF_PRECISION <= n / u
  {
    RoundsToNearer(n, u);
    if n / u >= PRECISION {
      TimesGrows(PRECISION, n / u, u);
    }
    if HALF_PRECISION * u <= n && n / u < HALF_PRECISION {
      TimesGrows(n / u + 1, HALF_PRECISION, u);
    }
  }

  /** The nearest double lies in the range of its spacing. */
  lemma NearestRange(n: nat)
    requires Spacing(n, 1) > 1
    ensures var u := Spacing(n, 1); HALF_PRECISION * u <= Nearest(n) <= PRECISION * u
  {
    hide Spacing, RoundTo;
    var u := Spacing(n, 1);
    RoundsToNearer(n, u);
    QuotientRange(n, u);
    TimesGrows(HALF_PRECISION, n / u, u);
    TimesGrows(n / u + 1, PRECISION, u);
    OneMore(n / u, u);
  }

  // ---------- the nearest double ----------

  /** The nearest double is a double. */
  lemma NearestIdempotent(n: nat)
    ensures Nearest(Nearest(n)) == Nearest(n)
  {
    hide RoundTo;
    var u, r := Spacing(n, 1), Nearest(n);
    if u > 1 {
      NearestRange(n);
      SpacingFollows(n, r, 1);
      RoundsToNearer(n, u);
      if r == PRECISION * u {
        Regroup(HALF_PRECISION, u);
        MultipleStays(HALF_PRECISION, 2 * u);
        assert Spacing(r, u) == 2 * u;
      } else {
        MultipleStays(if r == n / u * u then n / u else n / u + 1, u);
        assert Spacing(r, u) == u;
      }
    }
  }

  /** A double that reaches the range of a spacing is a multiple of it. */
  lemma DoubleIsMultiple(n: nat, m: nat) returns (c: nat)
    requires Nearest(m) == m && PRECISION * Spacing(n, 1) <= 2 * m
    ensures m == c * Spacing(n, 1)
  {
    hide Spacing, RoundTo;
    var u := Spacing(n, 1);
    SpacingFollows(n, m, 1);
    var w := SpacingMultiple(m, u);
    var s := Spacing(m, u);
    RoundsToNearer(m, s);
    OneMore(m / s, s);
    c := m / s * w;
    Associate(m / s, w, u);
  }

  lemma Associate(a: nat, b: nat, c: nat)
    ensures a * (b * c) == a * b * c
  {
  }

  function Distance(a: int, b: int): nat {
    if a < b then b - a else a - b
  }

  /** No double is nearer to n than the one it converts to. */
  lemma NearestIsNearest(n: nat, m: nat)
    requires Nearest(m) == m
    ensures Distance(n, Nearest(n)) <= Distance(n, m)
  {
    hide Spacing, RoundTo;
    var u := Spacing(n, 1);
    if u > 1 {
      RoundsToNearer(n, u);
      var q := n / u;
      OneMore(q, u);
      if PRECISION * u <= 2 * m {
        var c := DoubleIsMultiple(n, m);
        if c <= q {
          TimesGrows(c, q, u);
        } else {
          TimesGrows(q + 1, c, u);
        }
      } else {
        QuotientRange(n, u);
        TimesGrows(HALF_PRECISION, q, u);
      }
    }
  }

  /** Conversion keeps order. */
  lemma NearestMonotone(a: nat, b: nat)
    requires a <= b
    ensures Nearest(a) <= Nearest(b)
  {
    hide Nearest;
    NearestIdempotent(a);
    NearestIdempotent(b);
    NearestIsNearest(a, Nearest(b));
    NearestIsNearest(b, Nearest(a));
  }

  // ---------- overflow ----------

  lemma {:induction false} DoublingsExactly(n: nat, i: nat, k: nat)
    ensures Doublings(n, Pow2(i)) <= k <==> n < PRECISION * Pow2(i + k)
    decreases k
  {
    Pow2Grows(i, i + k);
    if n >= PRECISION * Pow2(i) && k > 0 {
      DoublingsExactly(n, i + 1, k - 1);
    }
  }

  lemma TopRounds(m: nat, u: nat)
    requires Spacing(m, 1) == u && u % 2 == 0 && HALF_PRECISION * u <= m < PRECISION * u
    ensures Nearest(m) < PRECISION * u <==> m < PRECISION * u - u / 2
  {
    hide Spacing, RoundTo;
    RoundsToNearer(m, u);
    QuotientRange(m, u);
    OneMore(m / u, u);
    if m / u < PRECISION - 1 {
      TimesGrows(m / u + 1, PRECISION - 1, u);
    }
  }

  lemma HalfIsDouble(k: nat)
    requires k > 0
    ensures Nearest(HALF_PRECISION * Pow2(k)) == HALF_PRECISION * Pow2(k)
  {
    hide RoundTo;
    assert Pow2(k) == 2 * Pow2(k - 1);
    SpacingIs(HALF_PRECISION * Pow2(k), 0, k);
    MultipleStays(HALF_PRECISION, Pow2(k));
  }

  /** Rounding reaches 2^53 * 2^k exactly from half a spacing, 2^(k - 1), below it on. */
  lemma ReachesExactly(n: nat, k: nat)
    requires k > 0
    ensures Nearest(n) < PRECISION * Pow2(k) <==> n < PRECISION * Pow2(k) - Pow2(k - 1)
  {
    hide Spacing, Nearest;
    var u := Pow2(k);
    assert u == 2 * Pow2(k - 1) && Pow2(0) == 1 && Pow2(k + 1) == 2 * u;
    if n >= PRECISION * u {
      SpacingAtLeast(n, 0, k);
      NearestRange(n);
      TimesGrows(2 * u, Spacing(n, 1), HALF_PRECISION);
    } else if HALF_PRECISION * u <= n {
      SpacingIs(n, 0, k);
      TopRounds(n, u);
    } else {
      HalfIsDouble(k);
      NearestMonotone(n, HALF_PRECISION * u);
    }
  }

  /** An integer's double needs at most k doublings exactly below 2^(53 + k) - 2^(k - 1). */
  lemma OverflowsExactly(n: int, k: nat)
    requires k > 0
    ensures Doublings(Nearest(Abs(n)), 1) <= k <==> Abs(n) < PRECISION * Pow2(k) - Pow2(k - 1)
  {
    hide Doublings, Nearest;
    assert Pow2(0) == 1;
    DoublingsExactly(Nearest(Abs(n)), 0, k);
    ReachesExactly(Abs(n), k);
  }

  /** `float(n)` overflows exactly from 2^1024 - 2^970 on: 2^53 * 2^971 less half of 2^971. */
  lemma ConvertsExactly(n: int, k: nat)
    requires k == MAX_DOUBLINGS
    ensures Converts(n) <==> Abs(n) < PRECISION * Pow2(k) - Pow2(k - 1)
  {
    hide Doublings, Nearest, Pow2;
    OverflowsExactly(n, k);
  }

  // ---------- the fewest digits ----------

  /** Some multiple of 10^e reads back as n. */
  predicate Fits(n: nat, e: nat) {
    Rounded(n, e) != n || n % Pow10(e) == 0
  }

  lemma NeighbourFits(n: nat, e: nat)
    requires var low := n - n % Pow10(e); 0 <= low && (Nearest(low) == n || Nearest(low + Pow10(e)) == n)
    ensures Fits(n, e)
  {
    hide Nearest;
  }

  lemma FitsWhen(n: nat, c: nat, e: nat)
    requires Nearest(n) == n && Nearest(c * Pow10(e)) == n
    ensures Fits(n, e)
  {
    hide Nearest, Fits, Pow10;
    var p := Pow10(e);
    Between(n, p);
    RemainderAtMost(n, p);
    var low, high := n / p * p, (n / p + 1) * p;
    if c <= n / p {
      TimesGrows(c, n / p, p);
      NearestMonotone(c * p, low);
      NearestMonotone(low, n);
    } else {
      TimesGrows(n / p + 1, c, p);
      NearestMonotone(n, high);
      NearestMonotone(high, c * p);
    }
    NeighbourFits(n, e);
  }

  /** A multiple that fits reads back. */
  lemma FitGives(n: nat, e: nat) returns (c: nat)
    requires Nearest(n) == n && Fits(n, e)
    ensures Rounded(n, e) == c * Pow10(e) && Nearest(Rounded(n, e)) == n
  {
    hide Nearest;
    var p := Pow10(e);
    Between(n, p);
    c := if Rounded(n, e) == n / p * p then n / p else n / p + 1;
  }

  lemma AlwaysFits(n: nat)
    requires Nearest(n) == n
    ensures Fits(n, 0) && Rounded(n, 0) == n
  {
    hide Nearest;
    assert Pow10(0) == 1 && n % 1 == 0;
  }

  lemma {:induction false} FirstFit(n: nat, e0: nat) returns (e: nat)
    requires Nearest(n) == n
    ensures e <= e0 && Fits(n, e) && ShortestFrom(n, e0) == Rounded(n, e)
    ensures forall i :: e < i <= e0 ==> !Fits(n, i)
    decreases e0
  {
    hide Rounded, Nearest;
    if e0 == 0 || Fits(n, e0) {
      AlwaysFits(n);
      e := e0;
    } else {
      e := FirstFit(n, e0 - 1);
    }
  }

  /** Beyond the digits of n only the next power of ten can read back. */
  lemma LastResort(n: nat)
    requires n > 0 && Nearest(n) == n && Fits(n, |Digits(n)|)
    ensures Rounded(n, |Digits(n)|) == Pow10(|Digits(n)|)
  {
    var e := |Digits(n)|;
    NumberNotation.DigitsExactly(n, e);
    hide Digits, Pow10, Spacing, RoundTo;
    QuotientIs(n, Pow10(e), 0);
    ZeroIsDouble();
  }

  lemma ZeroIsDouble()
    ensures Nearest(0) == 0
  {
  }

  lemma FitsBelow(n: nat, c: nat, e: nat, e0: nat)
    requires Nearest(n) == n && Nearest(c * Pow10(e)) == n && e0 <= e
    ensures Fits(n, e0)
  {
    hide Nearest, Fits, Pow10;
    Pow10Sum(e - e0, e0);
    Associate(c, Pow10(e - e0), Pow10(e0));
    FitsWhen(n, c * Pow10(e - e0), e0);
  }

  /**
   `repr` writes the fewest digits that read back: no decimal c * 10^e that converts to the double n has
   fewer digits than the one chosen.
   */
  lemma ShortestIsShortest(n: nat, c: nat, e: nat) returns (c': nat, e': nat)
    requires n > 0 && Nearest(n) == n && Nearest(c * Pow10(e)) == n
    ensures Shortest(n) == c' * Pow10(e') && |Digits(c')| <= |Digits(c)|
  {
    hide Nearest, Rounded, Digits, Pow10, Fits;
    var e0 := |Digits(n)|;
    e' := FirstFit(n, e0);
    c' := FitGives(n, e');
    if e' == e0 {
      LastResort(n);
      Unique(c', 0, 1, 0, Pow10(e0));
      OneDigit();
    } else {
      if e >= e0 {
        FitsBelow(n, c, e, e0);
      } else {
        FitsWhen(n, c, e);
      }
      if |Digits(c')| > |Digits(c)| {
        PowerBetween(n, c, e, c', e');
        if |Digits(c)| + e' >= e0 {
          FitsBelow(n, 1, |Digits(c)| + e', e0);
        } else {
          FitsWhen(n, 1, |Digits(c)| + e');
        }
        assert false;
      }
    }
  }

  lemma OneDigit()
    ensures |Digits(1)| == 1
  {
  }

  /** A power of ten lies between two decimals of different length. */
  lemma PowerBetween(n: nat, c: nat, e: nat, c': nat, e': nat)
    requires e <= e' && |Digits(c)| < |Digits(c')|
    requires Nearest(c * Pow10(e)) == n && Nearest(c' * Pow10(e')) == n && n > 0
    ensures Nearest(1 * Pow10(|Digits(c)| + e')) == n
  {
    NotZero(n, c, e);
    NotZero(n, c', e');
    hide Nearest, Digits, Pow10;
    var l := |Digits(c)|;
    NumberNotation.DigitsExactly(c, l);
    NumberNotation.DigitsExactly(c', l);
    Pow10Sum(l, e');
    Pow10Grows(e, e');
    TimesGrows(Pow10(l), c', Pow10(e'));
    TimesGrows(c, Pow10(l), Pow10(e'));
    Times(c, Pow10(e), Pow10(e'));
    NearestMonotone(c * Pow10(e), Pow10(l + e'));
    NearestMonotone(Pow10(l + e'), c' * Pow10(e'));
  }

  lemma NotZero(n: nat, c: nat, e: nat)
    requires n > 0 && Nearest(c * Pow10(e)) == n
    ensures c > 0
  {
    ZeroIsDouble();
    ZeroTimes(c, Pow10(e));
    hide Nearest, Pow10;
  }

  lemma ZeroTimes(c: nat, p: nat)
    ensures c == 0 ==> c * p == 0
  {
  }

  lemma Times(c: nat, p: nat, q: nat)
    requires p <= q
    ensures c * p <= c * q
  {
  }

  lemma {:induction false} Pow10Grows(a: nat, b: nat)
    requires a <= b
    ensures Pow10(a) <= Pow10(b)
    decreases b
  {
    if a < b {
      Pow10Grows(a, b - 1);
    }
  }

  // ---------- the nearest digits ----------

  /** Of the two multiples of 10^e around n: one that reads back, and of two the nearer, or the even one. */
  lemma RoundedCases(n: nat, e: nat, q: nat, r: nat, low: nat, high: nat)
    requires Nearest(n) == n && q == n / Pow10(e) && r == n % Pow10(e) && low == n - r && high == low + Pow10(e)
    ensures var p, d := Pow10(e), Rounded(n, e);
      if Nearest(low) == n && (Nearest(high) != n || 2 * r < p || (2 * r == p && q % 2 == 0)) then d == low
      else Nearest(high) == n ==> d == high
  {
    hide Nearest, Pow10;
  }

  /** c * 10^e reads back as n. */
  predicate ReadsAs(c: nat, e: nat, n: nat) {
    Nearest(c * Pow10(e)) == n
  }

  /** A multiple of p that reads back makes the neighbour of n on its side read back, and is no nearer. */
  lemma NeighbourReads(n: nat, c: nat, p: nat, low: nat, high: nat)
    requires p > 0 && Nearest(n) == n && Nearest(c * p) == n
    requires low == n - n % p && high == low + p
    ensures (c * p <= low && Nearest(low) == n) || (c * p >= high && Nearest(high) == n)
    ensures low / p == n / p && high / p == n / p + 1
  {
    hide Nearest;
    Between(n, p);
    QuotientIs(low, p, n / p);
    QuotientIs(high, p, n / p + 1);
    if c <= n / p {
      TimesGrows(c, n / p, p);
      NearestMonotone(c * p, low);
      NearestMonotone(low, n);
    } else {
      TimesGrows(n / p + 1, c, p);
      NearestMonotone(n, high);
      NearestMonotone(high, c * p);
    }
  }

  /** Of the two multiples of p around n the one chosen is no farther than another multiple on its side. */
  lemma NoFarther(n: nat, r: nat, p: nat, low: nat, high: nat, other: nat, rounded: nat)
    requires low == n - r && high == low + p && r < p
    requires rounded == low || rounded == high
    requires (other <= low && (rounded == high ==> 2 * r >= p)) || (other >= high && (rounded == low ==> 2 * r <= p))
    ensures Distance(n, rounded) <= Distance(n, other)
    ensures Distance(n, rounded) == Distance(n, other) ==>
      rounded == other || (2 * r == p && (other == low || other == high))
  {
  }

  /** What is taken of the two multiples of 10^e around n, when some multiple reads back. */
  lemma Surrounding(n: nat, c: nat, e: nat) returns (q: nat, r: nat, low: nat, high: nat)
    requires Nearest(n) == n && ReadsAs(c, e, n)
    ensures low == n - r && high == low + Pow10(e) && r < Pow10(e) && low / Pow10(e) == q && high / Pow10(e) == q + 1
    ensures Rounded(n, e) == low || Rounded(n, e) == high
    ensures c * Pow10(e) <= low && Rounded(n, e) == high ==>
      2 * r > Pow10(e) || (2 * r == Pow10(e) && q % 2 == 1)
    ensures c * Pow10(e) >= high && Rounded(n, e) == low ==>
      2 * r < Pow10(e) || (2 * r == Pow10(e) && q % 2 == 0)
    ensures c * Pow10(e) <= low || c * Pow10(e) >= high
  {
    hide Nearest, Pow10, Rounded;
    var p := Pow10(e);
    q, r := n / p, n % p;
    Between(n, p);
    RemainderAtMost(n, p);
    low, high := n - r, n - r + p;
    RoundedCases(n, e, q, r, low, high);
    NeighbourReads(n, c, p, low, high);
  }

  /** Of the multiples of 10^e that read back as n, none is nearer than the one taken; of two, the even one is. */
  lemma RoundedIsNearest(n: nat, c: nat, e: nat)
    requires Nearest(n) == n && ReadsAs(c, e, n)
    ensures Distance(n, Rounded(n, e)) <= Distance(n, c * Pow10(e))
    ensures Distance(n, Rounded(n, e)) == Distance(n, c * Pow10(e)) ==>
      Rounded(n, e) == c * Pow10(e) || Rounded(n, e) / Pow10(e) % 2 == 0
  {
    hide Nearest, Pow10, Rounded, ReadsAs;
    var q, r, low, high := Surrounding(n, c, e);
    NoFarther(n, r, Pow10(e), low, high, c * Pow10(e), Rounded(n, e));
  }

  lemma NoneBeyond(n: nat, e: nat)
    requires Nearest(n) == n && !Fits(n, e)
    ensures forall c :: !ReadsAs(c, e, n)
  {
    hide Nearest, Fits, Pow10;
    forall c ensures !ReadsAs(c, e, n) {
      if ReadsAs(c, e, n) {
        FitsWhen(n, c, e);
      }
    }
  }

  /**
   The digits chosen are those of a multiple of some 10^e' where no multiple of a higher power of ten, up to
   the length of n, reads back; of the multiples of 10^e' that do, it is the nearest, or the even one of two.
   */
  lemma ShortestIsNearest(n: nat, c: nat) returns (e': nat)
    requires Nearest(n) == n
    ensures Shortest(n) % Pow10(e') == 0
    ensures forall k: nat, e: nat :: e' < e <= |Digits(n)| ==> !ReadsAs(k, e, n)
    ensures ReadsAs(c, e', n) ==>
      && Distance(n, Shortest(n)) <= Distance(n, c * Pow10(e'))
      && (Distance(n, Shortest(n)) == Distance(n, c * Pow10(e')) ==>
            Shortest(n) == c * Pow10(e') || Shortest(n) / Pow10(e') % 2 == 0)
  {
    hide Nearest, Rounded, Digits, Pow10, Fits, ReadsAs;
    e' := FirstFit(n, |Digits(n)|);
    var k := FitGives(n, e');
    MultipleStays(k, Pow10(e'));
    forall i: nat, e: nat | e' < e <= |Digits(n)| ensures !ReadsAs(i, e, n) {
      NoneBeyond(n, e);
    }
    if ReadsAs(c, e', n) {
      RoundedIsNearest(n, c, e');
    }
  }
}
