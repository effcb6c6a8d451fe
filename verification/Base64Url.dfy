/** Base64url integers of RFC 7518 section 2: the octets of a key's modulus and exponent. */
module Base64Url {
  import opened Results

  type Byte = b: int | 0 <= b < 0x100
  type Sextet = x: int | 0 <= x < 64

  // ---------- octets ----------

  /** `val.to_bytes((val.bit_length() + 7) // 8, "big")`; a single zero octet for 0. */
  function Octets(val: nat): (bs: seq<Byte>)
    ensures |bs| >= 1
  {
    if val < 0x100 then [val] else Octets(val / 0x100) + [val % 0x100]
  }

  function OctetsValue(bs: seq<Byte>): nat {
    if bs == [] then 0 else 0x100 * OctetsValue(bs[..|bs| - 1]) + bs[|bs| - 1]
  }

  function Pow256(n: nat): (p: nat)
    ensures p >= 1
  {
    if n == 0 then 1 else 0x100 * Pow256(n - 1)
  }

  /** The octets denote the value, and are the fewest that can: `byte_len` of them. */
  lemma {:induction false} OctetsMinimal(val: nat)
    ensures OctetsValue(Octets(val)) == val
    ensures val < Pow256(|Octets(val)|) && (val > 0 ==> Pow256(|Octets(val)| - 1) <= val)
  {
    if val < 0x100 {
      assert Octets(val)[..0] == [];
      assert Pow256(1) == 0x100 * Pow256(0);
    } else {
      OctetsMinimal(val / 0x100);
      var bs := Octets(val);
      assert bs[..|bs| - 1] == Octets(val / 0x100);
    }
  }

  // ---------- base64url ----------

  function Sextets(bs: seq<Byte>): seq<Sextet> {
    if bs == [] then []
    else if |bs| == 1 then [bs[0] / 4, bs[0] % 4 * 16]
    else if |bs| == 2 then [bs[0] / 4, bs[0] % 4 * 16 + bs[1] / 16, bs[1] % 16 * 4]
    else
      [bs[0] / 4, bs[0] % 4 * 16 + bs[1] / 16, bs[1] % 16 * 4 + bs[2] / 64, bs[2] % 64] + Sextets(bs[3..])
  }

  /** The octets of unpadded sextets; a lone sextet is not a text. */
  function FromSextets(xs: seq<Sextet>): Option<seq<Byte>> {
    if xs == [] then Some([])
    else if |xs| == 1 then None
    else if |xs| == 2 then Some([xs[0] as int * 4 + xs[1] / 16])
    else if |xs| == 3 then Some([xs[0] as int * 4 + xs[1] / 16, xs[1] as int % 16 * 16 + xs[2] / 4])
    else
      match FromSextets(xs[4..])
      case None => None
      case Some(rest) => Some([xs[0] as int * 4 + xs[1] / 16, xs[1] as int % 16 * 16 + xs[2] / 4,
                               xs[2] as int % 4 * 64 + xs[3]] + rest)
  }

  lemma GroupArithmetic(a: Byte, b: Byte, c: Byte)
    ensures a / 4 * 4 + (a % 4 * 16 + b / 16) / 16 == a
    ensures (a % 4 * 16 + b / 16) % 16 * 16 + (b % 16 * 4 + c / 64) / 4 == b
    ensures (b % 16 * 4 + c / 64) % 4 * 64 + c % 64 == c
  {
  }

  lemma {:induction false} SextetsRoundTrip(bs: seq<Byte>)
    ensures FromSextets(Sextets(bs)) == Some(bs)
    decreases |bs|
  {
    if |bs| == 1 {
      GroupArithmetic(bs[0], 0, 0);
      assert bs == [bs[0]];
    } else if |bs| == 2 {
      GroupArithmetic(bs[0], bs[1], 0);
      assert bs == [bs[0], bs[1]];
    } else if |bs| >= 3 {
      SextetsRoundTrip(bs[3..]);
      GroupReads(bs[0], bs[1], bs[2], bs[3..]);
      assert bs == [bs[0], bs[1], bs[2]] + bs[3..];
    }
  }

  lemma GroupReads(a: Byte, b: Byte, c: Byte, rest: seq<Byte>)
    requires FromSextets(Sextets(rest)) == Some(rest)
    ensures FromSextets(Sextets([a, b, c] + rest)) == Some([a, b, c] + rest)
  {
    var group: seq<Sextet> := [a / 4, a % 4 * 16 + b / 16, b % 16 * 4 + c / 64, c % 64];
    assert ([a, b, c] + rest)[3..] == rest;
    assert Sextets([a, b, c] + rest) == group + Sextets(rest);
    assert (group + Sextets(rest))[4..] == Sextets(rest);
    GroupArithmetic(a, b, c);
  }

  function SextetChar(x: Sextet): char {
    if x < 26 then (x + 65) as char
    else if x < 52 then (x + 71) as char
    else if x < 62 then (x - 4) as char
    else if x == 62 then '-' else '_'
  }

  function CharSextet(c: char): Option<Sextet> {
    if 'A' <= c <= 'Z' then Some(c as int - 65)
    else if 'a' <= c <= 'z' then Some(c as int - 71)
    else if '0' <= c <= '9' then Some(c as int + 4)
    else if c == '-' then Some(62)
    else if c == '_' then Some(63)
    else None
  }

  /** The alphabet of RFC 4648 section 5: letters from A and from a, digits from 0, then "-" and "_". */
  lemma AlphabetExactly(x: Sextet)
    ensures SextetChar(x) as int ==
      if x < 26 then 'A' as int + x
      else if x < 52 then 'a' as int + (x - 26)
      else if x < 62 then '0' as int + (x - 52)
      else if x == 62 then '-' as int else '_' as int
  {
  }

  /** base64url without the padding `rstrip("=")` takes away. */
  function Encode(xs: seq<Sextet>): string {
    if xs == [] then "" else [SextetChar(xs[0])] + Encode(xs[1..])
  }

  function Decode(s: string): Option<seq<Sextet>> {
    if s == "" then Some([])
    else
      match (CharSextet(s[0]), Decode(s[1..]))
      case (Some(x), Some(xs)) => Some([x] + xs)
      case _ => None
  }

  lemma {:induction false} CharsRoundTrip(xs: seq<Sextet>)
    ensures Decode(Encode(xs)) == Some(xs)
  {
    if xs != [] {
      CharsRoundTrip(xs[1..]);
      assert Encode(xs)[1..] == Encode(xs[1..]);
      assert xs == [xs[0]] + xs[1..];
    }
  }

  // ---------- integers ----------

  /** `_int_to_base64url`. */
  function FromInt(val: nat): string {
    if val == 0 then "AA" else Encode(Sextets(Octets(val)))
  }

  /** What a JWK reader computes. */
  function ToInt(s: string): Option<nat> {
    match Decode(s)
    case None => None
    case Some(xs) =>
      match FromSextets(xs)
      case None => None
      case Some(bs) => Some(OctetsValue(bs))
  }

  /** Zero needs no rule of its own: "AA" is what its one zero octet encodes to. */
  lemma ZeroIsOneOctet()
    ensures FromInt(0) == Encode(Sextets(Octets(0)))
  {
    var xs: seq<Sextet> := [0, 0];
    assert Sextets(Octets(0)) == xs;
    assert xs[1..] == [0] && xs[1..][1..] == [];
    assert Encode(xs) == [SextetChar(0)] + ([SextetChar(0)] + "");
  }

  /** Every integer reads back; so distinct key parameters have distinct texts. */
  lemma IntRoundTrip(val: nat)
    ensures ToInt(FromInt(val)) == Some(val)
  {
    ZeroIsOneOctet();
    CharsRoundTrip(Sextets(Octets(val)));
    SextetsRoundTrip(Octets(val));
    OctetsMinimal(val);
  }
}
