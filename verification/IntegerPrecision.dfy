/**
 Integers and their doubles: the canonical text sees an integer only as the double it converts to,
 Python's `==` sees it exactly.
 */
module IntegerPrecision {
  import opened Results
  import opened Doubles
  import opened JsonValues
  import opened Canonical
  import CanonicalNumber
  import opened KeyOrder
  import opened PyEquality

  /** The tree with every integer converted, as the canonical text sees it. */
  function AsDoubles(v: Json): Json {
    match v
    case Int(n) => Float(Converted(n))
    case Arr(es) => Arr(seq(|es|, i requires 0 <= i < |es| => AsDoubles(es[i])))
    case Obj(ms) =>
      Obj(seq(|ms|, i requires 0 <= i < |ms| => assert ms[i] in ms; Member(ms[i].key, AsDoubles(ms[i].value))))
    case _ => v
  }

  function MembersAsDoubles(ms: seq<Member>): (r: seq<Member>)
    ensures |r| == |ms|
  {
    seq(|ms|, i requires 0 <= i < |ms| => Member(ms[i].key, AsDoubles(ms[i].value)))
  }

  lemma SameNumberTransitive(a: Number, b: Number, c: Number)
    requires SameNumber(a, b) && SameNumber(b, c)
    ensures SameNumber(a, c) && SameNumber(b, a)
  {
    SameNumberIsSameNormalForm(a, b);
    SameNumberIsSameNormalForm(b, c);
    SameNumberIsSameNormalForm(a, c);
    SameNumberIsSameNormalForm(b, a);
  }

  /** A number that is the same JSON as one Python calls equal to a third converts to a value equal to the third's. */
  lemma NumbersChain(u: Json, v: Json, w: Json)
    requires IsNumber(v) && Equiv(u, v) && PyEq(v, w)
    ensures PyEq(AsDoubles(u), AsDoubles(w))
  {
    hide Converted, SameNumber, FloatNumber;
    var x := if w.Int? then Converted(w.n) else if w.Float? then w.f else Converted(IntegerOf(w));
    assert SameNumber(NumberOf(v), FloatNumber(x)) by {
      SameNumberReflexive(NumberOf(v));
      if w.Float? && v.Float? {
      } else if v.Float? {
        SameNumberTransitive(FloatNumber(x), NumberOf(v), NumberOf(v));
      }
    }
    SameNumberTransitive(NumberOf(u), NumberOf(v), FloatNumber(x));
    if w.Bool? {
      SameNumberTransitive(NumberOf(u), FloatNumber(x), FloatNumber(x));
    }
  }

  lemma SameNumberReflexive(a: Number)
    ensures SameNumber(a, a)
  {
  }

  lemma BooleanChain(v: Json, w: Json)
    requires v.Bool? && PyEq(v, w)
    ensures PyEq(AsDoubles(v), AsDoubles(w))
  {
    if w.Int? {
      SameNumberReflexive(FloatNumber(Converted(w.n)));
    }
  }

  /** What is the same JSON as a value Python calls equal to w equals w, once integers are read as doubles. */
  lemma {:induction false} EquivThenPyEq(u: Json, v: Json, w: Json)
    requires Equiv(u, v) && PyEq(v, w)
    ensures PyEq(AsDoubles(u), AsDoubles(w))
    decreases u
  {
    match u
    case Arr(es) =>
      forall i | 0 <= i < |es| ensures PyEq(AsDoubles(es[i]), AsDoubles(w.elements[i])) {
        EquivThenPyEq(es[i], v.elements[i], w.elements[i]);
      }
    case Obj(ms) =>
      var ds, es := AsDoubles(u).members, AsDoubles(w).members;
      forall i | 0 <= i < |ms| ensures PyEqMember(ds[i], es) {
        assert EquivMember(ms[i], v.members);
        var j :| 0 <= j < |ms| && ms[i].key == v.members[j].key && Equiv(ms[i].value, v.members[j].value);
        assert PyEqMember(v.members[j], w.members);
        var k :| 0 <= k < |ms| && v.members[j].key == w.members[k].key && PyEq(v.members[j].value, w.members[k].value);
        EquivThenPyEq(ms[i].value, v.members[j].value, w.members[k].value);
        assert es[k].key == ds[i].key;
      }
    case Bool(_) => BooleanChain(u, w);
    case Int(_) => NumbersChain(u, v, w);
    case Float(_) => NumbersChain(u, v, w);
    case _ =>
  }

  lemma {:induction false} GetAsDoubles(ms: seq<Member>, key: string)
    ensures Get(MembersAsDoubles(ms), key) ==
      if Get(ms, key).Some? then Some(AsDoubles(Get(ms, key).value)) else None
  {
    if ms != [] {
      assert MembersAsDoubles(ms)[1..] == MembersAsDoubles(ms[1..]);
      GetAsDoubles(ms[1..], key);
    }
  }

  /** Dicts that are the same JSON have the same keys. */
  lemma EquivGetBack(ms: seq<Member>, ns: seq<Member>, key: string)
    requires DistinctKeys(ms) && DistinctKeys(ns) && Equiv(Obj(ms), Obj(ns)) && Get(ns, key).Some?
    ensures Get(ms, key).Some? && Equiv(Get(ms, key).value, Get(ns, key).value)
  {
    SameKeys(ms, ns);
    var j :| 0 <= j < |ns| && ns[j] == Member(key, Get(ns, key).value);
    assert HasKey(ns, key);
    EquivGet(ms, ns, key);
  }

  // ---------- where the text and `==` agree ----------

  /** The integer whose digits `Converted` normalizes. */
  function Rendered(n: int): int {
    if IsSafe(n) then n else if n < 0 then -(Shortest(Abs(n)) as int) else Shortest(Abs(n))
  }

  lemma RenderedReadsBack(n: int)
    requires IsExact(n)
    ensures Converted(n) == Normalize(Rendered(n), 0)
    ensures Nearest(Abs(Rendered(n))) == Abs(n) && (Rendered(n) < 0 <==> n < 0)
  {
    hide Shortest, Normalize, Spacing, RoundTo;
    ConvertedIsFinite(n);
  }

  /** Integers that are doubles convert to different values when they differ. */
  lemma ConvertedInjective(n: int, m: int)
    requires IsExact(n) && IsExact(m) && Converted(n).Finite() && Converted(m).Finite()
    requires SameNumber(FloatNumber(Converted(n)), FloatNumber(Converted(m)))
    ensures n == m
  {
    hide Converted, Shortest, Nearest, Normalize, IsExact;
    RenderedReadsBack(n);
    RenderedReadsBack(m);
    NormalizedValue(Rendered(n));
    NormalizedValue(Rendered(m));
    var a, b := Number(Rendered(n), 0), Number(Rendered(m), 0);
    SameNumberTransitive(a, FloatNumber(Converted(n)), FloatNumber(Converted(m)));
    SameNumberTransitive(b, FloatNumber(Converted(m)), b);
    SameNumberTransitive(a, FloatNumber(Converted(m)), b);
  }

  /** Normalizing keeps the value. */
  lemma NormalizedValue(d: int)
    ensures SameNumber(Number(d, 0), FloatNumber(Normalize(d, 0)))
    ensures SameNumber(FloatNumber(Normalize(d, 0)), Number(d, 0))
  {
    var f := Normalize(d, 0);
    CanonicalNumber.NormalFormOf(f);
    SameNumberIsSameNormalForm(Number(d, 0), FloatNumber(f));
    SameNumberIsSameNormalForm(FloatNumber(f), Number(d, 0));
  }

  /** An integer that is no double stands only against itself, at every depth and under every common key. */
  ghost predicate InexactAlign(v: Json, w: Json) {
    match v
    case Arr(es) =>
      w.Arr? ==> forall i :: 0 <= i < |es| && i < |w.elements| ==> InexactAlign(es[i], w.elements[i])
    case Obj(ms) =>
      w.Obj? ==> forall i, j :: 0 <= i < |ms| && 0 <= j < |w.members| && ms[i].key == w.members[j].key ==>
        InexactAlign(ms[i].value, w.members[j].value)
    case _ => (v.Int? && !IsExact(v.n)) || (w.Int? && !IsExact(w.n)) ==> v == w
  }

  lemma Symmetric(a: Float, b: Float)
    requires a.Finite() && b.Finite()
    ensures SameNumber(FloatNumber(a), FloatNumber(b)) <==> SameNumber(FloatNumber(b), FloatNumber(a))
  {
  }

  lemma ExactConverts(n: int)
    ensures IsExact(n) ==> Converted(n).Finite()
    ensures IsExact(0) && IsExact(1) && Converted(0).Finite() && Converted(1).Finite()
  {
    ConvertedIsFinite(n);
  }

  lemma SafeIsDouble(n: int)
    requires IsSafe(n)
    ensures IsDouble(n)
  {
    hide Spacing;
  }

  lemma ExactIsDouble(n: int)
    ensures IsExact(n) <==> IsDouble(n)
  {
    if IsSafe(n) {
      SafeIsDouble(n);
    }
  }

  /** Finite floats have equal values exactly when they are the same, or two zeros. */
  lemma SameValue(f: Float, g: Float)
    requires f.Finite() && g.Finite()
    ensures SameNumber(FloatNumber(f), FloatNumber(g)) <==> f == g || (f.Zero? && g.Zero?)
  {
    SameNumberIsSameNormalForm(FloatNumber(f), FloatNumber(g));
    CanonicalNumber.NormalFormOf(f);
    CanonicalNumber.NormalFormOf(g);
    hide SameNumber, FloatNumber, Normalize;
  }

  /** An integer equals a float exactly when it is a double, and the float is the one it converts to or a zero for 0. */
  lemma IntegersEqualDoubles(n: int, f: Float)
    ensures PyEq(Int(n), Float(f)) <==> IsDouble(n) && (f == Converted(n) || (n == 0 && f.Zero?))
    ensures PyEq(Float(f), Int(n)) <==> PyEq(Int(n), Float(f))
  {
    ExactIsDouble(n);
    ExactConverts(n);
    hide IsExact, IsDouble, Converted, SameNumber, FloatNumber;
    if IsExact(n) {
      ZeroConverts(n);
      if f.Finite() {
        SameValue(Converted(n), f);
      }
    }
  }

  lemma ZeroConverts(n: int)
    requires IsExact(n) && Converted(n).Finite()
    ensures Converted(n).Zero? <==> n == 0
  {
    ExactConverts(0);
    assert Converted(0) == Zero(false);
    hide Converted, IsExact;
    if Converted(n).Zero? {
      SameNumberReflexive(FloatNumber(Converted(0)));
      ConvertedInjective(n, 0);
    }
  }

  lemma LeavesExactly(v: Json, w: Json)
    requires !(v.Arr? && w.Arr?) && !(v.Obj? && w.Obj?)
    ensures PyEq(v, w) <==> PyEq(AsDoubles(v), AsDoubles(w)) && InexactAlign(v, w)
  {
    hide Converted, SameNumber, IsExact;
    ExactConverts(if v.Int? then v.n else 0);
    ExactConverts(if w.Int? then w.n else 0);
    if PyInteger(v) && PyInteger(w) {
      var a, b := IntegerOf(v), IntegerOf(w);
      ExactConverts(a);
      ExactConverts(b);
      if Converted(a).Finite() {
        SameNumberReflexive(FloatNumber(Converted(a)));
      }
      if IsExact(a) && IsExact(b) {
        if SameNumber(FloatNumber(Converted(a)), FloatNumber(Converted(b))) {
          ConvertedInjective(a, b);
        }
        if SameNumber(FloatNumber(Converted(b)), FloatNumber(Converted(a))) {
          ConvertedInjective(b, a);
        }
      }
    }
    if v.Int? && Converted(v.n).Finite() && w.Float? && w.f.Finite() { Symmetric(Converted(v.n), w.f); }
    if w.Int? && Converted(w.n).Finite() && v.Float? && v.f.Finite() { Symmetric(Converted(w.n), v.f); }
  }

  /**
   Python calls two values equal exactly when they are equal as doubles and an integer that is none stands
   only against itself.
   */
  lemma {:induction false} PyEqExactly(v: Json, w: Json)
    requires WellFormed(v) && WellFormed(w)
    ensures PyEq(v, w) <==> PyEq(AsDoubles(v), AsDoubles(w)) && InexactAlign(v, w)
    decreases v, 1
  {
    if v.Arr? && w.Arr? {
      forall i | 0 <= i < |v.elements| && i < |w.elements|
        ensures PyEq(v.elements[i], w.elements[i])
           <==> PyEq(AsDoubles(v).elements[i], AsDoubles(w).elements[i]) && InexactAlign(v.elements[i], w.elements[i])
      {
        PyEqExactly(v.elements[i], w.elements[i]);
      }
    } else if v.Obj? && w.Obj? {
      ObjectsExactly(v, w);
    } else {
      LeavesExactly(v, w);
    }
  }

  lemma {:induction false} ObjectsExactly(v: Json, w: Json)
    requires v.Obj? && w.Obj? && WellFormed(v) && WellFormed(w)
    ensures PyEq(v, w) <==> PyEq(AsDoubles(v), AsDoubles(w)) && InexactAlign(v, w)
    decreases v, 0
  {
    var ms, ns, ds, es := v.members, w.members, AsDoubles(v).members, AsDoubles(w).members;
    forall i, j | 0 <= i < |ms| && 0 <= j < |ns|
      ensures ms[i].key == ds[i].key && ns[j].key == es[j].key
      ensures PyEq(ms[i].value, ns[j].value)
        <==> PyEq(ds[i].value, es[j].value) && InexactAlign(ms[i].value, ns[j].value)
    {
      PyEqExactly(ms[i].value, ns[j].value);
    }
    if PyEq(v, w) {
      forall i | 0 <= i < |ms| ensures PyEqMember(ds[i], es) {
        assert PyEqMember(ms[i], ns);
        var j :| 0 <= j < |ns| && ms[i].key == ns[j].key && PyEq(ms[i].value, ns[j].value);
        assert es[j].key == ds[i].key;
      }
      forall i, j | 0 <= i < |ms| && 0 <= j < |ns| && ms[i].key == ns[j].key
        ensures InexactAlign(ms[i].value, ns[j].value)
      {
        assert PyEqMember(ms[i], ns);
        var k :| 0 <= k < |ns| && ms[i].key == ns[k].key && PyEq(ms[i].value, ns[k].value);
        assert k == j;
      }
    }
    if PyEq(AsDoubles(v), AsDoubles(w)) && InexactAlign(v, w) {
      forall i | 0 <= i < |ms| ensures PyEqMember(ms[i], ns) {
        assert PyEqMember(ds[i], es);
        var j :| 0 <= j < |es| && ds[i].key == es[j].key && PyEq(ds[i].value, es[j].value);
        assert ns[j].key == ms[i].key;
      }
    }
  }

  lemma NumbersAgree(v: Json, w: Json)
    requires IsNumber(v) && Equiv(v, w)
    ensures PyEq(v, w) <==> InexactAlign(v, w)
  {
    hide Converted, SameNumber, IsExact;
    if v.Int? && w.Int? && IsExact(v.n) && IsExact(w.n) {
      ConvertedInjective(v.n, w.n);
    }
    if v.Float? && w.Int? {
      SameNumberTransitive(NumberOf(v), NumberOf(w), NumberOf(w));
    }
  }

  /**
   Where two values are the same JSON, Python calls them equal exactly when an integer that is no double
   stands only against itself.
   */
  lemma {:induction false} EquivIsPyEqOnDoubles(v: Json, w: Json)
    requires WellFormed(v) && WellFormed(w) && Equiv(v, w)
    ensures PyEq(v, w) <==> InexactAlign(v, w)
    decreases v, 1
  {
    match v
    case Arr(es) =>
      forall i | 0 <= i < |es| ensures PyEq(es[i], w.elements[i]) <==> InexactAlign(es[i], w.elements[i]) {
        EquivIsPyEqOnDoubles(es[i], w.elements[i]);
      }
    case Obj(_) => ObjectsAgree(v, w);
    case Int(_) => NumbersAgree(v, w);
    case Float(_) => NumbersAgree(v, w);
    case _ =>
  }

  lemma {:induction false} ObjectsAgree(v: Json, w: Json)
    requires v.Obj? && WellFormed(v) && WellFormed(w) && Equiv(v, w)
    ensures PyEq(v, w) <==> InexactAlign(v, w)
    decreases v, 0
  {
    var ms, ns := v.members, w.members;
    forall i, j | 0 <= i < |ms| && 0 <= j < |ns| && ms[i].key == ns[j].key
      ensures Equiv(ms[i].value, ns[j].value)
      ensures PyEq(ms[i].value, ns[j].value) <==> InexactAlign(ms[i].value, ns[j].value)
    {
      assert EquivMember(ms[i], ns);
      var k :| 0 <= k < |ns| && ms[i].key == ns[k].key && Equiv(ms[i].value, ns[k].value);
      assert k == j;
      EquivIsPyEqOnDoubles(ms[i].value, ns[j].value);
    }
    if PyEq(v, w) {
      forall i, j | 0 <= i < |ms| && 0 <= j < |ns| && ms[i].key == ns[j].key
        ensures InexactAlign(ms[i].value, ns[j].value)
      {
        assert PyEqMember(ms[i], ns);
        var k :| 0 <= k < |ns| && ms[i].key == ns[k].key && PyEq(ms[i].value, ns[k].value);
        assert k == j;
      }
    }
    if InexactAlign(v, w) {
      forall i | 0 <= i < |ms| ensures PyEqMember(ms[i], ns) {
        assert EquivMember(ms[i], ns);
        var j :| 0 <= j < |ns| && ms[i].key == ns[j].key && Equiv(ms[i].value, ns[j].value);
      }
    }
  }

  /** 2^53 and 2^53 + 1 have one canonical text, and Python calls them different. */
  lemma LargeIntegersShareText()
    ensures var v, w := Int(PRECISION), Int(PRECISION + 1);
      Printable(v) && Printable(w) && Print(v) == Print(w) && !PyEq(v, w)
  {
    FirstInexact();
    ConvertedIsFinite(PRECISION);
    ConvertedIsFinite(PRECISION + 1);
    hide Shortest, Nearest, Normalize;
  }
}
