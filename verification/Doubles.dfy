/**
 Integers as IEEE 754 doubles: which integers are doubles, the one Python's `float(n)` picks, and the
 shortest decimal digits `repr` writes for it.
 */
module Doubles {
  import opened Numerals

  const MAX_SAFE_INTEGER := 9007199254740991

  /** 2^53: a double has so many consecutive values between two powers of two. */
  const PRECISION := 9007199254740992

  function Abs(n: int): nat {
    if n < 0 then -n else n
  }

  predicate IsSafe(n: int) {
    -MAX_SAFE_INTEGER <= n <= MAX_SAFE_INTEGER
  }

  function Pow2(n: nat): (p: nat)
    ensures p >= 1
  {
    if n == 0 then 1 else 2 * Pow2(n - 1)
  }

  const HALF_PRECISION := 0x10_0000_0000_0000

  /** The distance between the doubles around n, at least `unit`: the first one with n below 2^53 times it. */
  function Spacing(n: nat, unit: nat): (u: nat)
    requires unit > 0
    ensures u >= unit && n < PRECISION * u
    ensures u > unit ==> PRECISION * u <= 2 * n
    decreases if n > unit then n - unit else 0
  {
    if n < PRECISION * unit then unit else Spacing(n, 2 * unit)
  }

  lemma RemainderAtMost(n: nat, m: nat)
    requires m > 0
    ensures n % m <= n
  {
    if n < m {
      assert n % m == n;
    }
  }

  /** The multiple of `unit` nearest to n, the even one of two. */
  function RoundTo(n: nat, unit: nat): (r: nat)
    requires unit > 0
  {
    RemainderAtMost(n, unit);
    var r := n % unit;
    if 2 * r < unit || (2 * r == unit && n / unit % 2 == 0) then n - r else n - r + unit
  }

  /** The integer double nearest to n. */
  function Nearest(n: nat): (r: nat)
    ensures n < PRECISION ==> r == n
  {
    RoundTo(n, Spacing(n, 1))
  }

  /** How often the unit doubles until n lies below 2^53 of it. */
  function Doublings(n: nat, unit: nat): nat
    requires unit > 0
    decreases if n > unit then n - unit else 0
  {
    if n < PRECISION * unit then 0 else 1 + Doublings(n, 2 * unit)
  }

  /** The largest doubles are spaced by 2^971. */
  const MAX_DOUBLINGS := 971

  /** `float(n)` does not overflow: the nearest double lies below 2^53 * 2^971, which is 2^1024. */
  predicate Converts(n: int) {
    Doublings(Nearest(Abs(n)), 1) <= MAX_DOUBLINGS
  }

  /** The integer is the value of a double. */
  predicate IsDouble(n: int) {
    Nearest(Abs(n)) == Abs(n) && Converts(n)
  }

  // ---------- the shortest digits ----------

  /** Of the multiples of 10^e around n that a reader takes for n, the nearest one; n itself if there is none. */
  function Rounded(n: nat, e: nat): (d: nat)
    ensures d == n || Nearest(d) == n
  {
    var p := Pow10(e);
    RemainderAtMost(n, p);
    var r := n % p;
    var low, high := n - r, n - r + p;
    if Nearest(low) != n then (if Nearest(high) == n then high else n)
    else if Nearest(high) != n || 2 * r < p || (2 * r == p && n / p % 2 == 0) then low
    else high
  }

  function ShortestFrom(n: nat, e: nat): (d: nat)
    ensures d == n || Nearest(d) == n
    decreases e
  {
    if e == 0 then n
    else if Rounded(n, e) != n || n % Pow10(e) == 0 then Rounded(n, e)
    else ShortestFrom(n, e - 1)
  }

  /** The integer with the most trailing zeros that reads back as the double n: its significant digits are `repr`'s. */
  function Shortest(n: nat): (d: nat)
    ensures d == n || Nearest(d) == n
  {
    ShortestFrom(n, |Digits(n)|)
  }

  /** 2^53 is a double; 2^53 + 1 is none, and is taken for 2^53. */
  lemma FirstInexact()
    ensures IsDouble(PRECISION) && !IsDouble(PRECISION + 1)
    ensures Nearest(PRECISION + 1) == Nearest(PRECISION) == PRECISION && Converts(PRECISION + 1)
  {
    assert Spacing(PRECISION, 1) == Spacing(PRECISION, 2) == 2;
    assert Spacing(PRECISION + 1, 1) == Spacing(PRECISION + 1, 2) == 2;
    assert Doublings(PRECISION, 1) == 1 + Doublings(PRECISION, 2) == 1;
  }

  lemma {:induction false} Pow2Grows(a: nat, b: nat)
    requires a <= b
    ensures Pow2(a) <= Pow2(b)
    decreases b
  {
    if a < b {
      Pow2Grows(a, b - 1);
    }
  }
}
