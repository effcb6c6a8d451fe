/**
 Which notation a number gets, in terms of its magnitude alone. With the round trip this leaves one
 text per value: no superfluous zero, point, sign or exponent can be written.
 */
module NumberNotation {
  import opened Numerals
  import opened JsonValues
  import opened CanonicalNumber

  lemma {:induction false} TextIsDigits(ds: seq<Digit>)
    ensures forall i :: 0 <= i < |ds| ==> Text(ds)[i] == DigitChar(ds[i])
    ensures forall c :: c in Text(ds) ==> IsDigit(c)
  {
    if ds != [] {
      TextIsDigits(ds[1..]);
    }
  }

  /** A number has more than k digits exactly from 10^k on. */
  lemma {:induction false} DigitsExactly(n: nat, k: nat)
    requires n > 0
    ensures |Digits(n)| > k <==> n >= Pow10(k)
    decreases k
  {
    if k > 0 && n >= 10 {
      DigitsExactly(n / 10, k - 1);
    }
  }

  lemma LastDigit(n: nat)
    ensures Digits(n)[|Digits(n)| - 1] == n % 10
  {
  }

  /** |f| >= 10^k. */
  predicate AtLeastPower(f: Float, k: int)
    requires f.Decimal?
  {
    f.exp >= k || f.coeff >= Pow10(k - f.exp)
  }

  /** 10^-6 <= |f| < 10^21. */
  predicate Plain(f: Float)
    requires f.Decimal?
  {
    AtLeastPower(f, -6) && !AtLeastPower(f, 21)
  }

  lemma MagnitudeIsPlace(f: Float, k: int)
    requires f.Decimal?
    ensures AtLeastPower(f, k) <==> f.exp + |Digits(f.coeff)| > k
  {
    if f.exp < k {
      DigitsExactly(f.coeff, k - f.exp);
    }
  }

  /**
   Only numbers from 10^-6 up to 10^21 are written without an exponent, and only non-integers of them with
   a point.
   */
  lemma NotationExactly(f: Float)
    requires f.Decimal?
    ensures 'e' in EsNumber(f) <==> !Plain(f)
    ensures '.' in EsNumber(f) <==> if Plain(f) then f.exp < 0 else f.coeff >= 10
  {
    hide AtLeastPower, Digits, Text, Zeros, ExponentText;
    var ds := Digits(f.coeff);
    var n := f.exp + |ds|;
    MagnitudeIsPlace(f, -6);
    MagnitudeIsPlace(f, 21);
    if |ds| <= n <= 21 {
      TextIsDigits(ds + Zeros(n - |ds|));
    } else if 0 < n <= 21 {
      TextIsDigits(ds[..n]);
      TextIsDigits(ds[n..]);
    } else if -6 < n <= 0 {
      TextIsDigits([0]);
      TextIsDigits(Zeros(-n) + ds);
    } else {
      MantissaChars(ds);
      ExponentChars(n - 1);
      DigitsExactly(f.coeff, 1);
    }
  }

  lemma MantissaChars(ds: seq<Digit>)
    requires ds != []
    ensures 'e' !in Mantissa(ds) && ('.' in Mantissa(ds) <==> |ds| > 1)
    ensures var m := Mantissa(ds); m != "" && m[|m| - 1] == DigitChar(ds[|ds| - 1])
  {
    hide Text;
    TextIsDigits(ds);
    TextIsDigits(ds[..1]);
    TextIsDigits(ds[1..]);
  }

  lemma ExponentChars(e: int)
    requires e != 0
    ensures var t := ExponentText(e);
      && |t| > 2 && t[0] == 'e' && t[1] == (if e > 0 then '+' else '-') && t[2] != '0'
      && 'e' !in t[1..] && '.' !in t
  {
    hide Text, Digits;
    var ds := Digits(if e >= 0 then e else -e);
    DigitsValue(if e >= 0 then e else -e);
    TextIsDigits(ds);
    var sign := if e >= 0 then "+" else "-";
    assert ExponentText(e)[1..] == sign + Text(ds);
    assert ExponentText(e)[2] == Text(ds)[0];
  }

  /**
   The exponent has its sign, no leading zero, and a mantissa before it whose fraction does not end
   in a zero; nor does the fraction of a number without an exponent.
   */
  lemma ShapeExactly(f: Float)
    requires f.Decimal?
    ensures var s := EsNumber(f);
      if Plain(f) then '.' in s ==> s[|s| - 1] != '0'
      else
        forall i :: 0 <= i < |s| && s[i] == 'e' ==>
          && i > 0 && i + 2 < |s|
          && s[i - 1] != '0' && s[i + 1] == (if AtLeastPower(f, 21) then '+' else '-') && s[i + 2] != '0'
  {
    hide AtLeastPower, Digits, Text, Zeros, ExponentText, Mantissa, EsNumber, Plain;
    LastDigit(f.coeff);
    if Plain(f) {
      NotationExactly(f);
      if f.exp < 0 {
        PlainEnds(f);
      }
    } else {
      var ds := Digits(f.coeff);
      var n := f.exp + |ds|;
      ExponentSign(f);
      MantissaChars(ds);
      ExponentChars(n - 1);
      ScientificText(f);
      OnlyExponent(if f.neg then "-" else "", Mantissa(ds), ExponentText(n - 1));
    }
  }

  lemma ExponentSign(f: Float)
    requires f.Decimal? && !Plain(f)
    ensures var e := f.exp + |Digits(f.coeff)| - 1;
      e != 0 && (e > 0 <==> AtLeastPower(f, 21))
  {
    MagnitudeIsPlace(f, -6);
    MagnitudeIsPlace(f, 21);
  }

  /** The one "e" of a text that starts its exponent part. */
  lemma OnlyExponent(sign: string, m: string, t: string)
    requires 'e' !in sign && 'e' !in m && m != "" && t != "" && 'e' !in t[1..]
    ensures var s := sign + m + t;
      forall i :: 0 <= i < |s| && s[i] == 'e' ==>
        i == |sign + m| && s[i - 1] == m[|m| - 1] && forall j :: 0 <= j < |t| ==> s[i + j] == t[j]
  {
    var s := sign + m + t;
    forall i | |sign + m| < i < |s| ensures s[i] in t[1..] {
      assert s[i] == t[1..][i - |sign + m| - 1];
    }
  }

  lemma ScientificText(f: Float)
    requires f.Decimal? && !Plain(f)
    ensures var ds := Digits(f.coeff);
      EsNumber(f) == (if f.neg then "-" else "") + Mantissa(ds) + ExponentText(f.exp + |ds| - 1)
  {
    MagnitudeIsPlace(f, -6);
    MagnitudeIsPlace(f, 21);
    hide AtLeastPower, Digits, Text, Zeros, ExponentText, Mantissa;
  }

  lemma PlainEnds(f: Float)
    requires f.Decimal? && Plain(f) && f.exp < 0
    ensures EsNumber(f) != "" && EsNumber(f)[|EsNumber(f)| - 1] == DigitChar(f.coeff % 10)
  {
    MagnitudeIsPlace(f, -6);
    MagnitudeIsPlace(f, 21);
    LastDigit(f.coeff);
    hide AtLeastPower, Digits, Text, Zeros;
    var ds := Digits(f.coeff);
    var n := f.exp + |ds|;
    var tail := if 0 < n then ds[n..] else Zeros(-n) + ds;
    TextIsDigits(tail);
    assert tail[|tail| - 1] == ds[|ds| - 1];
  }
}
