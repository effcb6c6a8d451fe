/** ECMAScript's number layout and a JSON number reader that undoes it. */
module CanonicalNumber {
  import opened Doubles
  import opened Numerals
  import opened JsonValues
  import opened Parsing

  function ExponentText(e: int): string {
    "e" + ((if e >= 0 then "+" else "-") + Text(Digits(if e >= 0 then e else -e)))
  }

  function Mantissa(ds: seq<Digit>): string
    requires ds != []
  {
    if |ds| == 1 then Text(ds) else Text(ds[..1]) + ("." + Text(ds[1..]))
  }

  /** The body of `_es_number`: the decimal point sits n places into the digits. */
  function Layout(ds: seq<Digit>, n: int): string
    requires ds != []
  {
    var k := |ds|;
    if k <= n <= 21 then
      Text(ds + Zeros(n - k))
    else if 0 < n <= 21 then
      Text(ds[..n]) + ("." + Text(ds[n..]))
    else if -6 < n <= 0 then
      Text([0]) + ("." + Text(Zeros(-n) + ds))
    else
      Mantissa(ds) + ExponentText(n - 1)
  }

  /** `_es_number`. */
  function EsNumber(f: Float): string
    requires f.Finite()
  {
    match f
    case Zero(_) => "0"
    case Decimal(neg, coeff, exp) =>
      var ds := Digits(coeff);
      var body := Layout(ds, exp + |ds|);
      if neg then "-" + body else body
  }

  // ---------- the reader: RFC 8259 numbers ----------

  /** One or more digits. */
  function ReadDigits(s: string): (r: Parsed<seq<Digit>>)
    ensures r.Done? ==> r.value != [] && |r.rest| < |s|
  {
    var ds := LeadingDigits(s);
    if ds == [] then Fail else Done(ds, s[|ds|..])
  }

  /** An integer part: no superfluous leading zero. */
  function ReadIntegerPart(s: string): (r: Parsed<seq<Digit>>)
    ensures r.Done? ==> r.value != [] && |r.rest| < |s|
  {
    var r := ReadDigits(s);
    if r.Done? && r.value[0] == 0 && |r.value| > 1 then Fail else r
  }

  function ReadFraction(s: string): (r: Parsed<seq<Digit>>)
    ensures r.Done? ==> |r.rest| <= |s|
  {
    if s != [] && s[0] == '.' then ReadDigits(s[1..]) else Done([], s)
  }

  function ReadExponent(s: string): (r: Parsed<int>)
    ensures r.Done? ==> |r.rest| <= |s|
  {
    if s != [] && (s[0] == 'e' || s[0] == 'E') then
      var t := s[1..];
      var negative := t != [] && t[0] == '-';
      var u := if t != [] && (t[0] == '-' || t[0] == '+') then t[1..] else t;
      match ReadDigits(u)
      case Fail => Fail
      case Done(ds, rest) => Done(if negative then 0 - Value(ds) else Value(ds), rest)
    else
      Done(0, s)
  }

  /** The parts of an unsigned number as written: whole.frac * 10^exp. */
  datatype Written = Written(whole: seq<Digit>, frac: seq<Digit>, exp: int)

  function WrittenNumber(w: Written): (r: Number)
    ensures r.mantissa >= 0
  {
    Number(Value(w.whole + w.frac), w.exp - |w.frac|)
  }

  function ReadMagnitude(s: string): (r: Parsed<Written>)
    ensures r.Done? ==> |r.rest| < |s|
  {
    match ReadIntegerPart(s)
    case Fail => Fail
    case Done(whole, s1) =>
      match ReadFraction(s1)
      case Fail => Fail
      case Done(frac, s2) =>
        match ReadExponent(s2)
        case Fail => Fail
        case Done(e, s3) => Done(Written(whole, frac, e), s3)
  }

  /** The number a JSON text starts with, in normal form, and the text after it. */
  function ReadNumber(s: string): (r: Parsed<Float>)
    ensures r.Done? ==> |r.rest| < |s| && r.value.Finite()
  {
    var negative := s != [] && s[0] == '-';
    match ReadMagnitude(if negative then s[1..] else s)
    case Fail => Fail
    case Done(w, rest) =>
      var n := WrittenNumber(w);
      Done(Normalize(if negative then -n.mantissa else n.mantissa, n.exp), rest)
  }

  // ---------- reading the layout back ----------

  /** What may follow a number in a JSON text without becoming part of it. */
  predicate EndsNumber(rest: string) {
    rest == [] || rest[0] == ',' || rest[0] == ']' || rest[0] == '}'
  }

  lemma WholeReads(whole: seq<Digit>, tail: string)
    requires whole != [] && (whole[0] == 0 ==> |whole| == 1)
    requires tail == [] || !IsDigit(tail[0])
    ensures ReadIntegerPart(Text(whole) + tail) == Done(whole, tail)
  {
    LeadingDigitsOfText(whole, tail);
  }

  lemma FractionReads(frac: seq<Digit>, tail: string)
    requires frac != []
    requires tail == [] || !IsDigit(tail[0])
    ensures ReadFraction("." + Text(frac) + tail) == Done(frac, tail)
  {
    hide LeadingDigits, Text;
    LeadingDigitsOfText(frac, tail);
    assert ("." + Text(frac) + tail)[1..] == Text(frac) + tail;
  }

  lemma SignedDigitsRead(sign: char, ds: seq<Digit>, rest: string)
    requires (sign == '+' || sign == '-') && ds != [] && EndsNumber(rest)
    ensures ReadExponent("e" + ([sign] + Text(ds)) + rest)
         == Done(if sign == '-' then 0 - Value(ds) else Value(ds), rest)
  {
    hide LeadingDigits, Text, Value;
    LeadingDigitsOfText(ds, rest);
    var s := "e" + ([sign] + Text(ds)) + rest;
    assert s[1..] == [sign] + (Text(ds) + rest);
    assert s[1..][1..] == Text(ds) + rest;
  }

  lemma ExponentReads(e: int, rest: string)
    requires EndsNumber(rest)
    ensures ReadExponent(ExponentText(e) + rest) == Done(e, rest)
  {
    hide ReadExponent, Text, Digits, Value;
    var m := if e >= 0 then e else -e;
    DigitsValue(m);
    SignedDigitsRead(if e >= 0 then '+' else '-', Digits(m), rest);
  }

  lemma PlainReads(whole: seq<Digit>, tail: string, e: int, rest: string)
    requires whole != [] && (whole[0] == 0 ==> |whole| == 1)
    requires tail == [] || (!IsDigit(tail[0]) && tail[0] != '.')
    requires ReadExponent(tail) == Done(e, rest)
    ensures ReadMagnitude(Text(whole) + tail) == Done(Written(whole, [], e), rest)
  {
    WholeReads(whole, tail);
  }

  lemma DottedReads(whole: seq<Digit>, frac: seq<Digit>, tail: string, e: int, rest: string)
    requires whole != [] && (whole[0] == 0 ==> |whole| == 1) && frac != []
    requires tail == [] || !IsDigit(tail[0])
    requires ReadExponent(tail) == Done(e, rest)
    ensures ReadMagnitude(Text(whole) + ("." + Text(frac)) + tail) == Done(Written(whole, frac, e), rest)
  {
    var s1 := "." + Text(frac) + tail;
    assert Text(whole) + ("." + Text(frac)) + tail == Text(whole) + s1;
    WholeReads(whole, s1);
    FractionReads(frac, tail);
  }

  /** What each of the four layouts writes. */
  function LayoutWritten(ds: seq<Digit>, n: int): Written
    requires ds != []
  {
    if |ds| <= n <= 21 then Written(ds + Zeros(n - |ds|), [], 0)
    else if 0 < n <= 21 then Written(ds[..n], ds[n..], 0)
    else if -6 < n <= 0 then Written([0], Zeros(-n) + ds, 0)
    else Written(ds[..1], ds[1..], n - 1)
  }

  lemma ScientificReads(ds: seq<Digit>, e: int, rest: string)
    requires ds != [] && ds[0] != 0 && EndsNumber(rest)
    ensures ReadMagnitude(Mantissa(ds) + ExponentText(e) + rest) == Done(Written(ds[..1], ds[1..], e), rest)
  {
    var tail := ExponentText(e) + rest;
    ExponentReads(e, rest);
    assert Mantissa(ds) + ExponentText(e) + rest == Mantissa(ds) + tail;
    if |ds| == 1 {
      assert ds[..1] == ds && ds[1..] == [];
      PlainReads(ds, tail, e, rest);
    } else {
      DottedReads(ds[..1], ds[1..], tail, e, rest);
    }
  }

  lemma LayoutReads(ds: seq<Digit>, n: int, rest: string)
    requires ds != [] && ds[0] != 0 && EndsNumber(rest)
    ensures ReadMagnitude(Layout(ds, n) + rest) == Done(LayoutWritten(ds, n), rest)
  {
    hide ReadMagnitude, Mantissa, ExponentText, Text, ReadDigits;
    if |ds| <= n <= 21 {
      PlainReads(ds + Zeros(n - |ds|), rest, 0, rest);
    } else if 0 < n <= 21 {
      DottedReads(ds[..n], ds[n..], rest, 0, rest);
    } else if -6 < n <= 0 {
      DottedReads([0], Zeros(-n) + ds, rest, 0, rest);
    } else {
      ScientificReads(ds, n - 1, rest);
    }
  }

  /** How many zeros the layout appends to the digits. */
  function Padding(ds: seq<Digit>, n: int): nat {
    if |ds| <= n <= 21 then n - |ds| else 0
  }

  /** Each of the four layouts writes the digits at their place. */
  lemma LayoutNumber(ds: seq<Digit>, n: int)
    requires ds != []
    ensures WrittenNumber(LayoutWritten(ds, n))
         == Number(Value(ds) * Pow10(Padding(ds, n)), n - |ds| - Padding(ds, n))
  {
    var w := LayoutWritten(ds, n);
    assert Pow10(0) == 1;
    if |ds| <= n <= 21 {
      assert w.whole + w.frac == ds + Zeros(n - |ds|);
      TrailingZeros(ds, n - |ds|);
    } else if 0 < n <= 21 {
      assert w.whole + w.frac == ds;
    } else if -6 < n <= 0 {
      assert w.whole + w.frac == Zeros(1) + (Zeros(-n) + ds);
      LeadingZeros(1, Zeros(-n) + ds);
      LeadingZeros(-n, ds);
    } else {
      assert w.whole + w.frac == ds;
    }
  }

  lemma LayoutStartsWithDigit(ds: seq<Digit>, n: int)
    requires ds != []
    ensures Layout(ds, n) != [] && IsDigit(Layout(ds, n)[0])
  {
  }

  /** The canonical value of a float: -0 is 0, everything else is itself. */
  function CanonFloat(f: Float): Float {
    if f.Zero? then Zero(false) else f
  }

  /** Whatever layout `_es_number` picks reads back as exactly sign * digits * 10^exponent. */
  lemma NumberRoundTrip(f: Float, rest: string)
    requires f.Finite() && EndsNumber(rest)
    ensures ReadNumber(EsNumber(f) + rest) == Done(CanonFloat(f), rest)
  {
    if f.Zero? {
      PlainReads([0], rest, 0, rest);
      ZeroIsZero();
    } else {
      DecimalRoundTrip(f, rest);
    }
  }

  lemma DecimalRoundTrip(f: Float, rest: string)
    requires f.Decimal? && EndsNumber(rest)
    ensures ReadNumber(EsNumber(f) + rest) == Done(f, rest)
  {
    var ds := Digits(f.coeff);
    DigitsValue(f.coeff);
    var n := f.exp + |ds|;
    var w := LayoutWritten(ds, n);
    var body := Layout(ds, n);
    assert ReadMagnitude(body + rest) == Done(w, rest) by {
      LayoutReads(ds, n, rest);
    }
    assert body != [] && IsDigit(body[0]) by {
      LayoutStartsWithDigit(ds, n);
    }
    SignedReads(f.neg, body, rest, w);
    DecimalValue(f, w);
  }

  lemma DecimalValue(f: Float, w: Written)
    requires f.Decimal?
    requires w == LayoutWritten(Digits(f.coeff), f.exp + |Digits(f.coeff)|)
    ensures var n := WrittenNumber(w); Normalize(if f.neg then -n.mantissa else n.mantissa, n.exp) == f
  {
    var ds := Digits(f.coeff);
    DigitsValue(f.coeff);
    LayoutNumber(ds, f.exp + |ds|);
    SignedScaled(f.neg, f.coeff, f.exp, Padding(ds, f.exp + |ds|));
  }

  lemma ZeroIsZero()
    ensures Text([0]) == "0" && WrittenNumber(Written([0], [], 0)) == Number(0, 0)
  {
    assert [0] + [] == [0] && Value([0]) == 0;
  }

  lemma SignedReads(neg: bool, body: string, rest: string, w: Written)
    requires body != [] && IsDigit(body[0])
    requires ReadMagnitude(body + rest) == Done(w, rest)
    ensures var n := WrittenNumber(w);
      ReadNumber((if neg then "-" + body else body) + rest)
        == Done(Normalize(if neg then -n.mantissa else n.mantissa, n.exp), rest)
  {
    hide ReadMagnitude, Normalize, WrittenNumber;
    var s := (if neg then "-" + body else body) + rest;
    if neg {
      assert s[1..] == body + rest;
    } else {
      assert s[0] == body[0];
    }
  }

  lemma SignedScaled(neg: bool, coeff: Coefficient, exp: int, k: nat)
    ensures Normalize(if neg then -(coeff * Pow10(k) as int) else coeff * Pow10(k), exp - k) == Decimal(neg, coeff, exp)
  {
    hide Normalize, Pow10;
    NormalCoefficient(neg, coeff, exp);
    var p := Pow10(k);
    if neg {
      NormalizeScaled(-(coeff as int), exp - k, k);
      assert -(coeff as int) * p == -(coeff * p);
    } else {
      NormalizeScaled(coeff, exp - k, k);
    }
  }

  lemma NormalCoefficient(neg: bool, coeff: Coefficient, exp: int)
    ensures Normalize(if neg then -(coeff as int) else coeff, exp) == Decimal(neg, coeff, exp)
  {
  }

  lemma NumberTextStarts(f: Float)
    requires f.Finite()
    ensures EsNumber(f) != [] && (IsDigit(EsNumber(f)[0]) || EsNumber(f)[0] == '-')
  {
    if f.Decimal? {
      LayoutStartsWithDigit(Digits(f.coeff), f.exp + |Digits(f.coeff)|);
    }
  }

  /** Distinct numbers have distinct texts. */
  lemma NumberTextInjective(f: Float, g: Float)
    requires f.Finite() && g.Finite() && EsNumber(f) == EsNumber(g)
    ensures SameNumber(FloatNumber(f), FloatNumber(g))
  {
    NumberRoundTrip(f, "");
    NumberRoundTrip(g, "");
    NormalFormOf(f);
    NormalFormOf(g);
    SameNumberIsSameNormalForm(FloatNumber(f), FloatNumber(g));
  }

  lemma NormalFormOf(f: Float)
    requires f.Finite()
    ensures Normalize(FloatNumber(f).mantissa, FloatNumber(f).exp) == CanonFloat(f)
  {
    if f.Decimal? {
      NormalCoefficient(f.neg, f.coeff, f.exp);
    }
  }

  // ---------- the int branch ----------

  /** A number of at most 21 digits is laid out as an integer. */
  lemma IntegerLayout(c: nat, i: nat)
    requires c > 0 && |Digits(c * Pow10(i))| <= 21
    ensures Layout(Digits(c), i + |Digits(c)|) == Text(Digits(c * Pow10(i)))
  {
    hide Text, Pow10, Digits, Zeros;
    DigitsScaled(c, i);
  }

  lemma IntegerParts(n: int) returns (i: nat)
    requires n != 0
    ensures var f := Normalize(n, 0);
      && f.Decimal? && f.exp == i && f.neg == (n < 0)
      && (if n < 0 then -n else n) == f.coeff * Pow10(i)
  {
    i := NormalizeKeepsValue(n, 0);
    var m := FloatNumber(Normalize(n, 0)).mantissa;
    hide Pow10;
    SignOf(n, m, Pow10(i));
  }

  lemma SignOf(n: int, m: int, p: nat)
    requires n == m * p && p >= 1
    ensures (n < 0 <==> m < 0) && -n == -m * p
  {
  }

  lemma SafeDigits(n: nat)
    requires n <= MAX_SAFE_INTEGER
    ensures |Digits(n)| <= 16
  {
    Pow10Sum(8, 8);
    DigitsLength(n, 16);
  }

  lemma SafeConverts(n: int)
    requires IsSafe(n)
    ensures Converted(n) == Normalize(n, 0)
  {
    hide Normalize, Converts, Shortest, Nearest;
  }

  /** A decimal with the value of an integer of at most 21 digits is written as the integer. */
  lemma IntegerText(n: int, f: Float, i: nat)
    requires n != 0 && f.Decimal? && f.exp == i && f.neg == (n < 0) && Abs(n) == f.coeff * Pow10(i)
    requires |Digits(Abs(n))| <= 21
    ensures EsNumber(f) == IntNumeral(n)
  {
    hide Layout, Digits, Text, Pow10, Zeros;
    IntegerLayout(f.coeff, i);
  }

  /** `str(value)` on a safe integer is what `_es_number` prints for the float of the same value. */
  lemma IntBranchAgrees(n: int)
    requires IsSafe(n)
    ensures IntNumeral(n) == EsNumber(Converted(n))
  {
    SafeConverts(n);
    if n == 0 {
      assert Normalize(0, 0) == Zero(false);
    } else {
      hide Converted, EsNumber, IntNumeral, Normalize, Digits, Pow10;
      var i := IntegerParts(n);
      SafeDigits(Abs(n));
      IntegerText(n, Normalize(n, 0), i);
    }
  }
}
