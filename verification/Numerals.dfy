/** Decimal numerals: the digits of a natural number, their value, and the effect of scaling by ten. */
module Numerals {

  function Pow10(n: nat): (p: nat)
    ensures p >= 1
  {
    if n == 0 then 1 else 10 * Pow10(n - 1)
  }

  lemma {:induction false} Pow10Sum(a: nat, b: nat)
    ensures Pow10(a + b) == Pow10(a) * Pow10(b)
  {
    if a > 0 {
      Pow10Sum(a - 1, b);
    }
  }

  type Digit = d: int | 0 <= d < 10

  /** The digits of n, most significant first, without leading zeros (0 itself is one digit). */
  function Digits(n: nat): (ds: seq<Digit>)
    ensures |ds| >= 1
  {
    if n < 10 then [n] else Digits(n / 10) + [n % 10]
  }

  /** The number acc followed by the digits ds denote. */
  function ValueFrom(acc: nat, ds: seq<Digit>): nat
    decreases |ds|
  {
    if ds == [] then acc else ValueFrom(10 * acc + ds[0], ds[1..])
  }

  /** The number a digit sequence denotes; the empty one denotes 0. */
  function Value(ds: seq<Digit>): nat {
    ValueFrom(0, ds)
  }

  function Zeros(n: nat): (ds: seq<Digit>)
    ensures |ds| == n
  {
    if n == 0 then [] else [0] + Zeros(n - 1)
  }

  lemma {:induction false} ValueOfConcat(acc: nat, a: seq<Digit>, b: seq<Digit>)
    ensures ValueFrom(acc, a + b) == ValueFrom(ValueFrom(acc, a), b)
    decreases |a|
  {
    if a == [] {
      assert a + b == b;
    } else {
      assert (a + b)[1..] == a[1..] + b;
      ValueOfConcat(10 * acc + a[0], a[1..], b);
    }
  }

  lemma {:induction false} DigitsValue(n: nat)
    ensures Value(Digits(n)) == n
    ensures n > 0 ==> Digits(n)[0] != 0
  {
    if n < 10 {
      assert ValueFrom(0, [n]) == ValueFrom(n, []);
    } else {
      DigitsValue(n / 10);
      ValueOfConcat(0, Digits(n / 10), [n % 10]);
      assert ValueFrom(n / 10, [n % 10]) == ValueFrom(n, []);
    }
  }

  lemma {:induction false} DigitsLength(n: nat, k: nat)
    requires k >= 1 && n < Pow10(k)
    ensures |Digits(n)| <= k
  {
    if n >= 10 {
      DigitsLength(n / 10, k - 1);
    }
  }

  lemma {:induction false} ZerosScale(acc: nat, k: nat)
    ensures ValueFrom(acc, Zeros(k)) == acc * Pow10(k)
    decreases k
  {
    if k > 0 {
      ZerosScale(10 * acc, k - 1);
      assert Zeros(k)[1..] == Zeros(k - 1);
    }
  }

  lemma TrailingZeros(ds: seq<Digit>, k: nat)
    ensures Value(ds + Zeros(k)) == Value(ds) * Pow10(k)
  {
    ValueOfConcat(0, ds, Zeros(k));
    ZerosScale(Value(ds), k);
  }

  lemma LeadingZeros(k: nat, ds: seq<Digit>)
    ensures Value(Zeros(k) + ds) == Value(ds)
  {
    ValueOfConcat(0, Zeros(k), ds);
    ZerosScale(0, k);
  }

  /** Scaling a positive number by 10^k appends k zeros to its digits. */
  lemma {:induction false} DigitsScaled(c: nat, k: nat)
    requires c > 0
    ensures Digits(c * Pow10(k)) == Digits(c) + Zeros(k)
  {
    if k == 0 {
      assert Digits(c) + Zeros(0) == Digits(c);
    } else {
      var m := c * Pow10(k - 1);
      assert c * Pow10(k) == 10 * m;
      PositiveProduct(c, Pow10(k - 1));
      DigitsScaled(c, k - 1);
      assert Digits(10 * m) == Digits(m) + [0];
      ZerosCommute(k - 1);
    }
  }

  lemma {:induction false} ZerosCommute(n: nat)
    ensures Zeros(n) + [0] == Zeros(n + 1)
  {
    if n > 0 {
      ZerosCommute(n - 1);
      assert [0] + Zeros(n - 1) + [0] == [0] + (Zeros(n - 1) + [0]);
    }
  }

  lemma PositiveProduct(c: nat, p: nat)
    requires c > 0 && p > 0
    ensures c * p > 0
  {
  }

  // ---------- digits as text ----------

  predicate IsDigit(c: char) {
    '0' <= c <= '9'
  }

  function DigitChar(d: Digit): (c: char)
    ensures IsDigit(c) && DigitOf(c) == d
  {
    (d + 48) as char
  }

  function DigitOf(c: char): Digit
    requires IsDigit(c)
  {
    c as int - 48
  }

  function Text(ds: seq<Digit>): (s: string)
    ensures |s| == |ds|
  {
    if ds == [] then [] else [DigitChar(ds[0])] + Text(ds[1..])
  }

  /** Python's `str(n)`. */
  function IntNumeral(n: int): string {
    if n < 0 then "-" + Text(Digits(-n)) else Text(Digits(n))
  }

  /** The longest run of digits `s` starts with. */
  function LeadingDigits(s: string): (ds: seq<Digit>)
    ensures |ds| <= |s|
  {
    if s != [] && IsDigit(s[0]) then [DigitOf(s[0])] + LeadingDigits(s[1..]) else []
  }

  lemma {:induction false} LeadingDigitsOfText(ds: seq<Digit>, rest: string)
    requires rest == [] || !IsDigit(rest[0])
    ensures LeadingDigits(Text(ds) + rest) == ds
    ensures (Text(ds) + rest)[|ds|..] == rest
  {
    hide Digits, Value, Pow10, Zeros;
    var s := Text(ds) + rest;
    if ds == [] {
      assert s == rest;
    } else {
      hide IsDigit, DigitOf, DigitChar;
      LeadingDigitsOfText(ds[1..], rest);
      assert s[0] == DigitChar(ds[0]);
      assert s[1..] == Text(ds[1..]) + rest;
      assert LeadingDigits(s) == [ds[0]] + ds[1..];
    }
  }
}
