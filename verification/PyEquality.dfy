/** Python's `==` on JSON-like values, and where it agrees with being the same JSON. */
module PyEquality {
  import opened Doubles
  import opened JsonValues
  import opened KeyOrder

  /** Python counts True and False as the integers 1 and 0. */
  predicate PyInteger(v: Json) {
    v.Bool? || v.Int?
  }

  function IntegerOf(v: Json): int
    requires PyInteger(v)
  {
    if v.Bool? then if v.b then 1 else 0 else v.n
  }

  predicate PyNumeric(v: Json) {
    PyInteger(v) || (v.Float? && v.f.Finite())
  }

  /** An integer that is no double's value equals no float. */
  predicate IsExact(n: int) {
    IsSafe(n) || IsDouble(n)
  }

  predicate IntegerIsFloat(n: int, f: Float)
    requires f.Finite()
  {
    IsExact(n) && Converted(n).Finite() && SameNumber(FloatNumber(Converted(n)), FloatNumber(f))
  }

  /** Numbers compare by their exact values. */
  predicate PySameNumber(v: Json, w: Json)
    requires PyNumeric(v) && PyNumeric(w)
  {
    if PyInteger(v) && PyInteger(w) then IntegerOf(v) == IntegerOf(w)
    else if PyInteger(v) then IntegerIsFloat(IntegerOf(v), w.f)
    else if PyInteger(w) then IntegerIsFloat(IntegerOf(w), v.f)
    else SameNumber(FloatNumber(v.f), FloatNumber(w.f))
  }

  /** `v == w` on JSON-like Python values: dicts without order, numbers and booleans by value, NaN unequal. */
  predicate PyEq(v: Json, w: Json) {
    match v
    case Null => w.Null?
    case Str(s) => w == v
    case Arr(es) =>
      w.Arr? && |es| == |w.elements| && forall i :: 0 <= i < |es| ==> PyEq(es[i], w.elements[i])
    case Obj(ms) => w.Obj? && |ms| == |w.members| && forall i :: 0 <= i < |ms| ==> PyEqMember(ms[i], w.members)
    case Float(f) => if f.Finite() then PyNumeric(w) && PySameNumber(v, w) else f.Infinity? && w == v
    case _ => PyNumeric(w) && PySameNumber(v, w)
  }

  predicate PyEqMember(m: Member, ns: seq<Member>) {
    exists j :: 0 <= j < |ns| && m.key == ns[j].key && PyEq(m.value, ns[j].value)
  }

  /** A boolean stands only against a boolean, at every depth and under every common key. */
  ghost predicate BooleansAlign(v: Json, w: Json) {
    match v
    case Arr(es) =>
      w.Arr? ==> forall i :: 0 <= i < |es| && i < |w.elements| ==> BooleansAlign(es[i], w.elements[i])
    case Obj(ms) =>
      w.Obj? ==> forall i, j :: 0 <= i < |ms| && 0 <= j < |w.members| && ms[i].key == w.members[j].key ==>
        BooleansAlign(ms[i].value, w.members[j].value)
    case _ => v.Bool? <==> w.Bool?
  }

  /**
   Where `==` accepts two printable values, they are the same JSON exactly when no boolean was
   compared with a number: `True == 1` in Python, but `true` and `1` are different JSON.
   */
  lemma {:induction false} PyEqIsEquivOffBooleans(v: Json, w: Json)
    requires WellFormed(v) && WellFormed(w) && Printable(w) && PyEq(v, w)
    ensures Printable(v)
    ensures Equiv(v, w) <==> BooleansAlign(v, w)
    decreases v, 1
  {
    match v
    case Arr(es) =>
      forall i | 0 <= i < |es|
        ensures Printable(es[i]) && (Equiv(es[i], w.elements[i]) <==> BooleansAlign(es[i], w.elements[i]))
      {
        PyEqIsEquivOffBooleans(es[i], w.elements[i]);
      }
    case Obj(ms) =>
      PyEqIsEquivObjects(v, w);
    case _ =>
  }

  lemma {:induction false} PyEqIsEquivObjects(v: Json, w: Json)
    requires v.Obj? && w.Obj? && WellFormed(v) && WellFormed(w) && Printable(w) && PyEq(v, w)
    ensures Printable(v)
    ensures Equiv(v, w) <==> BooleansAlign(v, w)
    decreases v, 0
  {
    var ms, ns := v.members, w.members;
    forall i | 0 <= i < |ms| ensures Printable(ms[i].value) {
      assert PyEqMember(ms[i], ns);
      var j :| 0 <= j < |ns| && ms[i].key == ns[j].key && PyEq(ms[i].value, ns[j].value);
      PyEqIsEquivOffBooleans(ms[i].value, ns[j].value);
    }
    if Equiv(v, w) {
      forall i, j | 0 <= i < |ms| && 0 <= j < |ns| && ms[i].key == ns[j].key
        ensures BooleansAlign(ms[i].value, ns[j].value)
      {
        assert PyEqMember(ms[i], ns) && EquivMember(ms[i], ns);
        var k :| 0 <= k < |ns| && ms[i].key == ns[k].key && PyEq(ms[i].value, ns[k].value);
        var l :| 0 <= l < |ns| && ms[i].key == ns[l].key && Equiv(ms[i].value, ns[l].value);
        assert k == j && l == j;
        PyEqIsEquivOffBooleans(ms[i].value, ns[j].value);
      }
    }
    if BooleansAlign(v, w) {
      forall i | 0 <= i < |ms| ensures EquivMember(ms[i], ns) {
        assert PyEqMember(ms[i], ns);
        var j :| 0 <= j < |ns| && ms[i].key == ns[j].key && PyEq(ms[i].value, ns[j].value);
        PyEqIsEquivOffBooleans(ms[i].value, ns[j].value);
      }
    }
  }

  /** A boolean equals what its integer equals, on either side. */
  lemma BooleansAreIntegers(b: bool, w: Json)
    ensures var n := Int(if b then 1 else 0);
      (PyEq(Bool(b), w) <==> PyEq(n, w)) && (PyEq(w, Bool(b)) <==> PyEq(w, n))
  {
  }

  /** NaN equals nothing, an infinity only the one of its sign. */
  lemma SpecialFloats(neg: bool, w: Json)
    ensures !PyEq(Float(NaN), w) && !PyEq(w, Float(NaN))
    ensures PyEq(Float(Infinity(neg)), w) <==> w == Float(Infinity(neg))
    ensures PyEq(w, Float(Infinity(neg))) <==> w == Float(Infinity(neg))
  {
  }

  /** NaN aside, a value equals itself. */
  lemma {:induction false} PyEqReflexive(v: Json)
    requires Printable(v)
    ensures PyEq(v, v)
  {
    match v
    case Arr(es) =>
      forall i | 0 <= i < |es| ensures PyEq(es[i], es[i]) {
        PyEqReflexive(es[i]);
      }
    case Obj(ms) =>
      forall i | 0 <= i < |ms| ensures PyEqMember(ms[i], ms) {
        PyEqReflexive(ms[i].value);
      }
    case _ =>
  }

  /** What equals a printable value is printable. */
  lemma {:induction false} PyEqPrintable(v: Json, w: Json)
    requires Printable(v) && PyEq(v, w) && WellFormed(v) && WellFormed(w)
    ensures Printable(w)
    decreases v
  {
    match v
    case Arr(es) =>
      forall i | 0 <= i < |es| ensures Printable(w.elements[i]) {
        PyEqPrintable(es[i], w.elements[i]);
      }
    case Obj(ms) =>
      var ns := w.members;
      PyEqSameKeys(ms, ns);
      forall j | 0 <= j < |ns| ensures Printable(ns[j].value) {
        assert HasKey(ns, ns[j].key);
        var i :| 0 <= i < |ms| && ms[i].key == ns[j].key;
        assert PyEqMember(ms[i], ns);
        var k :| 0 <= k < |ns| && ms[i].key == ns[k].key && PyEq(ms[i].value, ns[k].value);
        assert k == j;
        PyEqPrintable(ms[i].value, ns[j].value);
      }
    case _ =>
  }

  lemma PyEqSameKeys(ms: seq<Member>, ns: seq<Member>)
    requires DistinctKeys(ms) && DistinctKeys(ns) && |ms| == |ns|
    requires forall i :: 0 <= i < |ms| ==> PyEqMember(ms[i], ns)
    ensures forall k :: HasKey(ms, k) <==> HasKey(ns, k)
  {
    forall i | 0 <= i < |ms| ensures HasKey(ns, ms[i].key) {
      assert PyEqMember(ms[i], ns);
      var j :| 0 <= j < |ns| && ms[i].key == ns[j].key && PyEq(ms[i].value, ns[j].value);
    }
    KeysAmongAreAll(ms, ns);
  }
}
