/**
 JSON trees as the Python code holds them, and what it means for two of them to be the same JSON:
 equal up to the order of object members and up to numeric value.
 */
module JsonValues {
  import opened Doubles
  import opened Numerals
  import opened Results

  /** A positive decimal coefficient without trailing zeros, as `Decimal.normalize` leaves it. */
  type Coefficient = c: nat | c % 10 != 0 witness 1

  /** A Python float: a finite non-zero one stands for sign * coeff * 10^exp, its shortest digits. */
  datatype Float =
    | NaN
    | Infinity(neg: bool)
    | Zero(neg: bool)
    | Decimal(neg: bool, coeff: Coefficient, exp: int)
  {
    predicate Finite() {
      Zero? || Decimal?
    }
  }

  datatype Member = Member(key: string, value: Json)

  /** Object members are in insertion order, as in a Python dict. */
  datatype Json =
    | Null
    | Bool(b: bool)
    | Str(s: string)
    | Int(n: int)
    | Float(f: Float)
    | Arr(elements: seq<Json>)
    | Obj(members: seq<Member>)

  ghost predicate DistinctKeys(ms: seq<Member>) {
    forall i, j :: 0 <= i < j < |ms| ==> ms[i].key != ms[j].key
  }

  /** Every object is a dict: no key occurs twice. */
  ghost predicate WellFormed(v: Json) {
    match v
    case Arr(es) => forall i :: 0 <= i < |es| ==> WellFormed(es[i])
    case Obj(ms) => DistinctKeys(ms) && forall i :: 0 <= i < |ms| ==> WellFormed(ms[i].value)
    case _ => true
  }

  /** No NaN, no infinity and no integer too large for a double anywhere: the trees that have a JSON text. */
  predicate Printable(v: Json) {
    match v
    case Int(n) => Converted(n).Finite()
    case Float(f) => f.Finite()
    case Arr(es) => forall i :: 0 <= i < |es| ==> Printable(es[i])
    case Obj(ms) => forall i :: 0 <= i < |ms| ==> Printable(ms[i].value)
    case _ => true
  }

  predicate PrintableMembers(ms: seq<Member>) {
    forall i :: 0 <= i < |ms| ==> Printable(ms[i].value)
  }

  // ---------- numbers ----------

  /** mantissa * 10^exp. */
  datatype Number = Number(mantissa: int, exp: int)

  function FloatNumber(f: Float): Number
    requires f.Finite()
  {
    match f
    case Zero(_) => Number(0, 0)
    case Decimal(neg, c, e) => Number(if neg then -(c as int) else c as int, e)
  }

  /** mantissa * 10^(exp - e), an integer because e <= exp. */
  function ScaledTo(a: Number, e: int): int
    requires e <= a.exp
  {
    a.mantissa * Pow10(a.exp - e)
  }

  /** Equal numeric values. */
  predicate SameNumber(a: Number, b: Number) {
    var e := if a.exp <= b.exp then a.exp else b.exp;
    ScaledTo(a, e) == ScaledTo(b, e)
  }

  /** The float with the value of `a`: trailing zeros move into the exponent; -0 becomes 0. */
  function Normalize(mantissa: int, exp: int): (f: Float)
    ensures f.Finite() && f != Zero(true)
    decreases if mantissa < 0 then -mantissa else mantissa
  {
    if mantissa == 0 then
      Zero(false)
    else if mantissa % 10 == 0 then
      Normalize(mantissa / 10, exp + 1)
    else
      Decimal(mantissa < 0, if mantissa < 0 then NegatedCoefficient(mantissa) else mantissa, exp)
  }

  function NegatedCoefficient(m: int): (c: Coefficient)
    requires m < 0 && m % 10 != 0
    ensures c == -m
  {
    -m
  }

  /**
   `float(n)`, in its shortest digits; an infinity stands for the OverflowError it raises when n is too
   large.
   */
  function Converted(n: int): (f: Float)
    ensures f != Zero(true) && !f.NaN?
  {
    if IsSafe(n) then Normalize(n, 0)
    else if !Converts(n) then Infinity(n < 0)
    else
      var d: int := Shortest(Nearest(Abs(n)));
      Normalize(if n < 0 then -d else d, 0)
  }

  lemma ConvertedIsFinite(n: int)
    ensures Converted(n).Finite() <==> IsSafe(n) || Converts(n)
  {
    hide Converts, Shortest, Nearest, Normalize;
  }

  lemma {:induction false} NormalizeScaled(m: int, e: int, k: nat)
    ensures Normalize(m * Pow10(k), e) == Normalize(m, e + k)
    decreases k
  {
    if k == 0 || m == 0 {
      assert m * Pow10(k) == if m == 0 then 0 else m;
      if m == 0 { assert Normalize(0, e) == Zero(false) == Normalize(0, e + k); }
    } else {
      var p := m * Pow10(k - 1);
      assert m * Pow10(k) == 10 * p;
      assert p != 0 by { NonZeroProduct(m, Pow10(k - 1)); }
      assert (10 * p) % 10 == 0 && (10 * p) / 10 == p;
      NormalizeScaled(m, e + 1, k - 1);
    }
  }

  lemma NonZeroProduct(m: int, p: nat)
    requires m != 0 && p >= 1
    ensures m * p != 0
  {
  }

  lemma TimesTen(c: int, p: int)
    ensures c * (10 * p) == 10 * (c * p)
  {
  }

  /** Normalizing keeps the value: the mantissa is the result's, scaled by the zeros moved out. */
  lemma {:induction false} NormalizeKeepsValue(m: int, e: int) returns (k: nat)
    ensures m == FloatNumber(Normalize(m, e)).mantissa * Pow10(k)
    ensures m != 0 ==> FloatNumber(Normalize(m, e)).exp == e + k
    decreases if m < 0 then -m else m
  {
    hide SameNumber;
    if m != 0 && m % 10 == 0 {
      var j := NormalizeKeepsValue(m / 10, e + 1);
      k := j + 1;
      var c := FloatNumber(Normalize(m, e)).mantissa;
      TimesTen(c, Pow10(j));
    } else {
      k := 0;
    }
  }

  /** Equal values have one normal form, and only equal values share it. */
  lemma {:induction false} SameNumberIsSameNormalForm(a: Number, b: Number)
    ensures SameNumber(a, b) <==> Normalize(a.mantissa, a.exp) == Normalize(b.mantissa, b.exp)
    decreases a.exp > b.exp
  {
    if a.exp > b.exp {
      SameNumberIsSameNormalForm(b, a);
    } else {
      var d := b.exp - a.exp;
      NormalizeScaled(b.mantissa, a.exp, d);
      assert ScaledTo(a, a.exp) == a.mantissa * 1;
      if Normalize(a.mantissa, a.exp) == Normalize(b.mantissa, b.exp) {
        var c := FloatNumber(Normalize(a.mantissa, a.exp)).mantissa;
        var i := NormalizeKeepsValue(a.mantissa, a.exp);
        var j := NormalizeKeepsValue(b.mantissa * Pow10(d), a.exp);
        if a.mantissa == 0 {
          assert c == 0;
          assert b.mantissa * Pow10(d) == 0;
        } else {
          assert b.mantissa * Pow10(d) != 0;
          assert i == j;
        }
      }
    }
  }

  // ---------- the same JSON ----------

  predicate IsNumber(v: Json) {
    (v.Int? && Converted(v.n).Finite()) || (v.Float? && v.f.Finite())
  }

  function NumberOf(v: Json): Number
    requires IsNumber(v)
  {
    match v
    case Int(n) => FloatNumber(Converted(n))
    case Float(f) => FloatNumber(f)
  }

  /**
   Equal up to member order and numeric value. Stated without sorting or printing: members are
   matched by key, numbers by value, integers by that of the double they convert to. NaN, infinities
   and integers too large for a double are not JSON and equal nothing.
   */
  ghost predicate Equiv(v: Json, w: Json) {
    match v
    case Null => w.Null?
    case Bool(b) => w == v
    case Str(s) => w == v
    case Int(_) => IsNumber(v) && IsNumber(w) && SameNumber(NumberOf(v), NumberOf(w))
    case Float(f) => f.Finite() && IsNumber(w) && SameNumber(NumberOf(v), NumberOf(w))
    case Arr(es) =>
      w.Arr? && |es| == |w.elements| && forall i :: 0 <= i < |es| ==> Equiv(es[i], w.elements[i])
    case Obj(ms) => w.Obj? && |ms| == |w.members| && forall i :: 0 <= i < |ms| ==> EquivMember(ms[i], w.members)
  }

  ghost predicate EquivMember(m: Member, ns: seq<Member>) {
    exists j :: 0 <= j < |ns| && m.key == ns[j].key && Equiv(m.value, ns[j].value)
  }

  /** Every printable tree is the same JSON as itself. */
  lemma {:induction false} EquivReflexive(v: Json)
    requires Printable(v)
    ensures Equiv(v, v)
  {
    match v
    case Arr(es) =>
      forall i | 0 <= i < |es| ensures Equiv(es[i], es[i]) {
        EquivReflexive(es[i]);
      }
    case Obj(ms) =>
      forall i | 0 <= i < |ms| ensures EquivMember(ms[i], ms) {
        EquivReflexive(ms[i].value);
      }
    case _ =>
  }

  // ---------- dict access ----------

  /** `d.get(key)`: the member's value. */
  function Get(ms: seq<Member>, key: string): (r: Option<Json>)
    ensures r.Some? ==> Member(key, r.value) in ms
    ensures r.None? ==> forall m :: m in ms ==> m.key != key
  {
    if ms == [] then None
    else if ms[0].key == key then Some(ms[0].value)
    else Get(ms[1..], key)
  }

  /** `d[key] = value`: an existing key keeps its place, a new one goes last. */
  function Put(ms: seq<Member>, key: string, value: Json): (r: seq<Member>)
    ensures forall k :: Get(r, k) == if k == key then Some(value) else Get(ms, k)
  {
    if ms == [] then [Member(key, value)]
    else if ms[0].key == key then [Member(key, value)] + ms[1..]
    else [ms[0]] + Put(ms[1..], key, value)
  }

  lemma {:induction false} GetIsUnique(ms: seq<Member>, m: Member)
    requires DistinctKeys(ms) && m in ms
    ensures Get(ms, m.key) == Some(m.value)
  {
    var r := Get(ms, m.key);
    var i :| 0 <= i < |ms| && ms[i] == m;
    var j :| 0 <= j < |ms| && ms[j] == Member(m.key, r.value);
  }

  lemma {:induction false} PutKeepsKeysDistinct(ms: seq<Member>, key: string, value: Json)
    requires DistinctKeys(ms)
    ensures DistinctKeys(Put(ms, key, value))
  {
    if ms != [] && ms[0].key != key {
      var tail := Put(ms[1..], key, value);
      PutKeepsKeysDistinct(ms[1..], key, value);
      forall i | 0 <= i < |tail| ensures tail[i].key != ms[0].key {
        GetIsUnique(tail, tail[i]);
        assert forall m :: m in ms[1..] ==> m.key != ms[0].key;
      }
    }
  }

  lemma EquivGet(ms: seq<Member>, ns: seq<Member>, key: string)
    requires DistinctKeys(ms) && DistinctKeys(ns) && Equiv(Obj(ms), Obj(ns)) && Get(ms, key).Some?
    ensures Get(ns, key).Some? && Equiv(Get(ms, key).value, Get(ns, key).value)
  {
    var m := Member(key, Get(ms, key).value);
    var i :| 0 <= i < |ms| && ms[i] == m;
    assert EquivMember(ms[i], ns);
    var j :| 0 <= j < |ns| && ms[i].key == ns[j].key && Equiv(ms[i].value, ns[j].value);
    GetIsUnique(ns, ns[j]);
  }
}
