/** Policy rules: conditions over the request tree, and the namespace only signed facts can write. */
module Rules {
  import opened Results
  import opened Doubles
  import opened JsonValues
  import opened NumericValue
  import opened PyEquality
  import opened Strings

  type UnitReal = r: real | 0.0 <= r <= 1.0 witness 0.0

  datatype Decision = Allow | Suggest | Confirm | Block

  /** `DECISION_PRECEDENCE`. */
  function Rank(d: Decision): (r: nat)
    ensures r <= 3
  {
    match d
    case Allow => 0
    case Suggest => 1
    case Confirm => 2
    case Block => 3
  }

  datatype Operator = Eq | Neq | Gt | Gte | Lt | Lte | In | NotIn | Exists | Contains

  datatype Condition = Condition(field: string, operator: Operator, value: Json)

  /** `all` and `any`, empty when absent. */
  datatype Group = Group(all: seq<Condition>, any: seq<Condition>)

  datatype Rule = Rule(
    id: string,
    condition: Group,
    decision: Decision,
    reason: string,
    confidencePenalty: UnitReal,
    riskDelta: UnitReal,
    payload: seq<Member>,
    auditFlags: seq<string>,
    approverRole: string)

  /** What the Python runtime computes on strings: `float(s)`, `str(v)` and `s.lower()`. */
  datatype Runtime = Runtime(
    parseFloat: string -> Option<Float>,
    str: Json -> string,
    lower: string -> string)

  // ---------- numeric comparison ----------

  /** `float(v)`; None when it raises. */
  function ToFloat(rt: Runtime, v: Json): Option<Float> {
    match v
    case Bool(b) => Some(Normalize(if b then 1 else 0, 0))
    case Int(n) => if Converted(n).Finite() then Some(Converted(n)) else None
    case Float(f) => Some(f)
    case Str(s) => rt.parseFloat(s)
    case _ => None
  }

  /** `a < b` on floats: every comparison with NaN is false. */
  predicate Less(a: Float, b: Float) {
    if a.NaN? || b.NaN? then false
    else if a.Infinity? then a.neg && b != a
    else if b.Infinity? then !b.neg
    else
      var x, y := FloatNumber(a), FloatNumber(b);
      var e := if x.exp <= y.exp then x.exp else y.exp;
      ScaledTo(x, e) < ScaledTo(y, e)
  }

  predicate SameFloat(a: Float, b: Float) {
    if a.Finite() && b.Finite() then SameNumber(FloatNumber(a), FloatNumber(b)) else a.Infinity? && a == b
  }

  predicate NumericCompare(rt: Runtime, op: Operator, actual: Json, expected: Json) {
    match (ToFloat(rt, actual), ToFloat(rt, expected))
    case (Some(a), Some(b)) =>
      (match op
       case Gt => Less(b, a)
       case Gte => Less(b, a) || SameFloat(a, b)
       case Lt => Less(a, b)
       case Lte => Less(a, b) || SameFloat(a, b)
       case _ => false)
    case _ => false
  }

  /** a < b where infinities are the extremes. */
  predicate Below(a: Float, b: Float)
    requires !a.NaN? && !b.NaN?
  {
    a != b && (a == Infinity(true) || b == Infinity(false) || (a.Finite() && b.Finite() && ValueOf(a) < ValueOf(b)))
  }

  predicate Level(a: Float, b: Float)
    requires !a.NaN? && !b.NaN?
  {
    a == b || (a.Finite() && b.Finite() && ValueOf(a) == ValueOf(b))
  }

  /**
   `gt`, `gte`, `lt` and `lte` compare the numbers two operands convert to, by value and with infinities
   as the extremes; nothing compares with NaN or with what does not convert.
   */
  lemma OperatorsExactly(rt: Runtime, actual: Json, expected: Json)
    ensures match (ToFloat(rt, actual), ToFloat(rt, expected))
      case (Some(a), Some(b)) =>
        if a.NaN? || b.NaN? then forall op :: !NumericCompare(rt, op, actual, expected)
        else
          && (NumericCompare(rt, Gt, actual, expected) <==> Below(b, a))
          && (NumericCompare(rt, Gte, actual, expected) <==> Below(b, a) || Level(a, b))
          && (NumericCompare(rt, Lt, actual, expected) <==> Below(a, b))
          && (NumericCompare(rt, Lte, actual, expected) <==> Below(a, b) || Level(a, b))
      case _ => forall op :: !NumericCompare(rt, op, actual, expected)
  {
    hide RealValue, ScaledTo, Converted;
    match (ToFloat(rt, actual), ToFloat(rt, expected))
    case (Some(a), Some(b)) =>
      if a.Finite() && b.Finite() {
        OrderIsRealOrder(FloatNumber(a), FloatNumber(b));
        OrderIsRealOrder(FloatNumber(b), FloatNumber(a));
      }
    case _ =>
  }

  /** A boolean and a numeric text convert, and so they compare. */
  lemma NonNumbersCompare(rt: Runtime)
    requires rt.parseFloat("500") == Some(Decimal(false, 5, 2))
    ensures NumericCompare(rt, Gt, Bool(true), Int(0)) && NumericCompare(rt, Gte, Str("500"), Int(500))
  {
    OperatorsExactly(rt, Bool(true), Int(0));
    OperatorsExactly(rt, Str("500"), Int(500));
    SmallNumbers();
    hide NumericCompare, Normalize, ValueOf;
  }

  lemma SmallNumbers()
    ensures Normalize(1, 0) == Decimal(false, 1, 0) && Converted(0) == Zero(false)
    ensures Converted(500) == Decimal(false, 5, 2)
    ensures ValueOf(Zero(false)) == 0.0 && ValueOf(Decimal(false, 1, 0)) == 1.0
  {
    assert Normalize(500, 0) == Normalize(50, 1) == Normalize(5, 2);
  }

  /** `float(v)` raises OverflowError, which no comparison catches. */
  predicate Overflows(v: Json) {
    v.Int? && !Converted(v.n).Finite()
  }

  // ---------- conditions ----------

  predicate ListHas(es: seq<Json>, v: Json) {
    exists i :: 0 <= i < |es| && PyEq(v, es[i])
  }

  predicate IsSubstring(part: string, whole: string) {
    part <= whole || (whole != "" && IsSubstring(part, whole[1..]))
  }

  predicate ContainsValue(rt: Runtime, actual: Json, expected: Json) {
    match actual
    case Str(s) => IsSubstring(rt.lower(rt.str(expected)), rt.lower(s))
    case Arr(es) => ListHas(es, expected)
    case _ => false
  }

  /** `path.split(".")`. */
  function Split(path: string): (parts: seq<string>)
    ensures parts != []
  {
    SplitOn(path, '.')
  }

  /** Following a path of keys through nested dicts. */
  function Lookup(v: Json, parts: seq<string>): Option<Json> {
    if parts == [] then Some(v)
    else if v.Obj? then
      match Get(v.members, parts[0])
      case None => None
      case Some(w) => Lookup(w, parts[1..])
    else None
  }

  /** `_field_value`: walks the dotted path; None stands for MISSING. */
  method FieldValue(data: seq<Member>, path: string) returns (r: Option<Json>)
    ensures r == Lookup(Obj(data), Split(path))
  {
    var current := Obj(data);
    var parts := Split(path);
    var i := 0;
    while i < |parts|
      invariant 0 <= i <= |parts|
      invariant Lookup(Obj(data), parts) == Lookup(current, parts[i..])
    {
      if current.Obj? {
        var next := Get(current.members, parts[i]);
        if next.Some? {
          assert parts[i..][1..] == parts[i + 1..];
          current := next.value;
          i := i + 1;
          continue;
        }
      }
      return None;
    }
    return Some(current);
  }

  predicate Holds(rt: Runtime, c: Condition, data: seq<Member>) {
    match Lookup(Obj(data), Split(c.field))
    case None => false
    case Some(actual) =>
      match c.operator
      case Exists => true
      case Eq => PyEq(actual, c.value)
      case Neq => !PyEq(actual, c.value)
      case In => c.value.Arr? && ListHas(c.value.elements, actual)
      case NotIn => c.value.Arr? && !ListHas(c.value.elements, actual)
      case Contains => ContainsValue(rt, actual, c.value)
      case _ => NumericCompare(rt, c.operator, actual, c.value)
  }

  predicate GroupHolds(rt: Runtime, g: Group, data: seq<Member>) {
    && (forall i :: 0 <= i < |g.all| ==> Holds(rt, g.all[i], data))
    && (g.any == [] || exists i :: 0 <= i < |g.any| && Holds(rt, g.any[i], data))
  }

  /** `evaluate_rules`: the rules whose condition holds, in the plugin's order. */
  function Triggered(rt: Runtime, rules: seq<Rule>, data: seq<Member>): (r: seq<Rule>)
    ensures forall x :: x in r <==> x in rules && GroupHolds(rt, x.condition, data)
  {
    if rules == [] then []
    else
      var rest := Triggered(rt, rules[1..], data);
      if GroupHolds(rt, rules[0].condition, data) then [rules[0]] + rest else rest
  }

  // ---------- raising ----------

  predicate Orders(op: Operator) {
    op == Gt || op == Gte || op == Lt || op == Lte
  }

  /** A comparison converts its operands from left to right and gives up at the first that does not convert. */
  predicate ConditionRaises(rt: Runtime, c: Condition, data: seq<Member>) {
    match Lookup(Obj(data), Split(c.field))
    case None => false
    case Some(actual) =>
      Orders(c.operator) && (Overflows(actual) || (ToFloat(rt, actual).Some? && Overflows(c.value)))
  }

  /** `all` and `any` stop at the first condition that decides them; what comes later cannot raise. */
  predicate RaisesBefore(rt: Runtime, cs: seq<Condition>, stop: bool, data: seq<Member>) {
    cs != []
    && (ConditionRaises(rt, cs[0], data) || (Holds(rt, cs[0], data) != stop && RaisesBefore(rt, cs[1..], stop, data)))
  }

  predicate GroupRaises(rt: Runtime, g: Group, data: seq<Member>) {
    RaisesBefore(rt, g.all, false, data) || RaisesBefore(rt, g.any, true, data)
  }

  predicate RulesRaise(rt: Runtime, rules: seq<Rule>, data: seq<Member>) {
    exists r :: r in rules && GroupRaises(rt, r.condition, data)
  }

  // ---------- what conditions and rules mean ----------

  /** The dict v maps the key to w. */
  predicate Leads(v: Json, key: string, w: Json) {
    v.Obj? && Get(v.members, key) == Some(w)
  }

  /** A chain of values from v to w, each a dict that maps the next key to the next value. */
  ghost predicate IsChain(chain: seq<Json>, v: Json, parts: seq<string>, w: Json) {
    && |chain| == |parts| + 1 && chain[0] == v && chain[|parts|] == w
    && forall i :: 0 <= i < |parts| ==> Leads(chain[i], parts[i], chain[i + 1])
  }

  ghost predicate LiesAt(v: Json, parts: seq<string>, w: Json) {
    exists chain :: IsChain(chain, v, parts, w)
  }

  /** A path finds exactly the value a chain of dicts leads to. */
  lemma {:induction false} LookupExactly(v: Json, parts: seq<string>, w: Json)
    ensures Lookup(v, parts) == Some(w) <==> LiesAt(v, parts, w)
    decreases |parts|
  {
    if parts == [] {
      if Lookup(v, parts) == Some(w) {
        assert IsChain([v], v, parts, w);
      }
    } else {
      if Lookup(v, parts) == Some(w) {
        var next := Get(v.members, parts[0]).value;
        LookupExactly(next, parts[1..], w);
        var rest :| IsChain(rest, next, parts[1..], w);
        var chain := [v] + rest;
        forall i | 0 <= i < |parts| ensures Leads(chain[i], parts[i], chain[i + 1]) {
          if i > 0 {
            assert Leads(rest[i - 1], parts[1..][i - 1], rest[i]);
          }
        }
        assert IsChain(chain, v, parts, w);
      }
      if LiesAt(v, parts, w) {
        var chain :| IsChain(chain, v, parts, w);
        assert Leads(chain[0], parts[0], chain[1]);
        assert IsChain(chain[1..], chain[1], parts[1..], w);
        LookupExactly(chain[1], parts[1..], w);
      }
    }
  }

  /** The part is in the text at this offset. */
  predicate OccursAt(part: string, whole: string, k: int) {
    0 <= k <= |whole| - |part| && whole[k..k + |part|] == part
  }

  lemma {:induction false} SubstringExactly(part: string, whole: string)
    ensures IsSubstring(part, whole) <==> exists k :: OccursAt(part, whole, k)
    decreases |whole|
  {
    if part <= whole {
      assert OccursAt(part, whole, 0);
    } else if whole != "" {
      SubstringExactly(part, whole[1..]);
      if IsSubstring(part, whole) {
        var k :| OccursAt(part, whole[1..], k);
        assert OccursAt(part, whole, k + 1);
      }
      if k :| OccursAt(part, whole, k) {
        assert k > 0;
        assert OccursAt(part, whole[1..], k - 1);
      }
    }
  }

  /** Both operands convert, and neither is NaN. */
  predicate Comparable(rt: Runtime, actual: Json, expected: Json) {
    && ToFloat(rt, actual).Some? && !ToFloat(rt, actual).value.NaN?
    && ToFloat(rt, expected).Some? && !ToFloat(rt, expected).value.NaN?
  }

  ghost predicate Among(v: Json, es: seq<Json>) {
    exists e :: e in es && PyEq(v, e)
  }

  /** How a field's value stands to the value a condition expects. */
  ghost predicate Relates(rt: Runtime, op: Operator, actual: Json, expected: Json) {
    match op
    case Exists => true
    case Eq => PyEq(actual, expected)
    case Neq => !PyEq(actual, expected)
    case In => expected.Arr? && Among(actual, expected.elements)
    case NotIn => expected.Arr? && !Among(actual, expected.elements)
    case Contains =>
      || (actual.Arr? && Among(expected, actual.elements))
      || (actual.Str? && exists k :: OccursAt(rt.lower(rt.str(expected)), rt.lower(actual.s), k))
    case Gt => Comparable(rt, actual, expected) && Below(ToFloat(rt, expected).value, ToFloat(rt, actual).value)
    case Lt => Comparable(rt, actual, expected) && Below(ToFloat(rt, actual).value, ToFloat(rt, expected).value)
    case Gte => Comparable(rt, actual, expected) && !Below(ToFloat(rt, actual).value, ToFloat(rt, expected).value)
    case Lte => Comparable(rt, actual, expected) && !Below(ToFloat(rt, expected).value, ToFloat(rt, actual).value)
  }

  /** The condition's field is there, and its value stands as asked to the one expected. */
  ghost predicate Met(rt: Runtime, c: Condition, data: seq<Member>) {
    exists actual :: LiesAt(Obj(data), SplitOn(c.field, '.'), actual) && Relates(rt, c.operator, actual, c.value)
  }

  /** Two numbers on the extended reals: one is below the other, or they are level. */
  lemma OneIsBelow(a: Float, b: Float)
    requires !a.NaN? && !b.NaN?
    ensures Below(a, b) || Level(a, b) <==> !Below(b, a)
  {
    hide ValueOf;
  }

  lemma OrderRelates(rt: Runtime, op: Operator, actual: Json, expected: Json)
    requires Orders(op)
    ensures NumericCompare(rt, op, actual, expected) <==> Relates(rt, op, actual, expected)
  {
    OperatorsExactly(rt, actual, expected);
    hide NumericCompare, ToFloat, Below, ValueOf;
    if Comparable(rt, actual, expected) {
      OneIsBelow(ToFloat(rt, actual).value, ToFloat(rt, expected).value);
      OneIsBelow(ToFloat(rt, expected).value, ToFloat(rt, actual).value);
    }
  }

  lemma ListHasExactly(es: seq<Json>, v: Json)
    ensures ListHas(es, v) <==> Among(v, es)
  {
    hide PyEq;
    if ListHas(es, v) {
      var i :| 0 <= i < |es| && PyEq(v, es[i]);
      assert es[i] in es;
    }
  }

  lemma ValueRelates(rt: Runtime, c: Condition, data: seq<Member>, actual: Json)
    requires Lookup(Obj(data), Split(c.field)) == Some(actual)
    ensures Holds(rt, c, data) <==> Relates(rt, c.operator, actual, c.value)
  {
    hide PyEq, ListHas, Among, NumericCompare, Lookup, SplitOn, Comparable, Below, IsSubstring, OccursAt;
    match c.operator
    case In => if c.value.Arr? { ListHasExactly(c.value.elements, actual); }
    case NotIn => if c.value.Arr? { ListHasExactly(c.value.elements, actual); }
    case Contains =>
      if actual.Arr? { ListHasExactly(actual.elements, c.value); }
      if actual.Str? { SubstringExactly(rt.lower(rt.str(c.value)), rt.lower(actual.s)); }
    case Exists =>
    case Eq =>
    case Neq =>
    case _ => OrderRelates(rt, c.operator, actual, c.value);
  }

  /** A condition holds exactly when its field is there and its value stands as asked to the one expected. */
  lemma HoldsExactly(rt: Runtime, c: Condition, data: seq<Member>)
    ensures Holds(rt, c, data) <==> Met(rt, c, data)
  {
    hide Relates, LiesAt, SplitOn, Lookup, PyEq, ListHas, ContainsValue, NumericCompare;
    var found := Lookup(Obj(data), Split(c.field));
    forall actual | LiesAt(Obj(data), SplitOn(c.field, '.'), actual) ensures found == Some(actual) {
      LookupExactly(Obj(data), Split(c.field), actual);
    }
    if found.Some? {
      LookupExactly(Obj(data), Split(c.field), found.value);
      ValueRelates(rt, c, data, found.value);
    }
  }

  /** The operators that deny each other, and when neither of them holds. */
  lemma Complements(rt: Runtime, field: string, value: Json, data: seq<Member>, actual: Json)
    requires LiesAt(Obj(data), SplitOn(field, '.'), actual)
    ensures Holds(rt, Condition(field, Exists, value), data)
    ensures Holds(rt, Condition(field, Eq, value), data) <==> !Holds(rt, Condition(field, Neq, value), data)
    ensures value.Arr? ==>
      (Holds(rt, Condition(field, In, value), data) <==> !Holds(rt, Condition(field, NotIn, value), data))
    ensures Comparable(rt, actual, value) ==>
      && (Holds(rt, Condition(field, Gt, value), data) <==> !Holds(rt, Condition(field, Lte, value), data))
      && (Holds(rt, Condition(field, Lt, value), data) <==> !Holds(rt, Condition(field, Gte, value), data))
    ensures forall op :: Holds(rt, Condition(field, op, value), data) ==>
      && (op == In || op == NotIn ==> value.Arr?) && (op == Contains ==> actual.Str? || actual.Arr?)
      && (Orders(op) ==> Comparable(rt, actual, value))
  {
    hide Holds, LiesAt, SplitOn, Lookup, Comparable, Among, PyEq, Below;
    LookupExactly(Obj(data), Split(field), actual);
    forall op ensures Holds(rt, Condition(field, op, value), data) <==> Relates(rt, op, actual, value) {
      ValueRelates(rt, Condition(field, op, value), data, actual);
    }
  }

  /** What `float()` makes of a value: nothing of null, lists and objects, 1 and 0 of booleans. */
  lemma ConversionExactly(rt: Runtime, v: Json)
    ensures var f := ToFloat(rt, v);
      match v
      case Bool(b) => f.Some? && f.value.Finite() && ValueOf(f.value) == (if b then 1.0 else 0.0)
      case Int(n) => (f.None? <==> TooLarge(v)) && (IsSafe(n) ==> f.value.Finite() && ValueOf(f.value) == n as real)
      case Float(x) => f == Some(x)
      case Str(s) => f == rt.parseFloat(s)
      case _ => f.None?
  {
    hide Converts, Shortest, Nearest;
    if v.Int? && IsSafe(v.n) {
      NormalValue(v.n);
    }
  }

  /** Every condition of `all` is met and, if there are any, one of `any`. */
  ghost predicate Applies(rt: Runtime, r: Rule, data: seq<Member>) {
    && (forall c :: c in r.condition.all ==> Met(rt, c, data))
    && (r.condition.any != [] ==> exists c :: c in r.condition.any && Met(rt, c, data))
  }

  lemma GroupApplies(rt: Runtime, r: Rule, data: seq<Member>)
    ensures GroupHolds(rt, r.condition, data) <==> Applies(rt, r, data)
  {
    hide Holds, Met;
    forall c ensures Holds(rt, c, data) <==> Met(rt, c, data) {
      HoldsExactly(rt, c, data);
    }
    var any := r.condition.any;
    if i :| 0 <= i < |any| && Holds(rt, any[i], data) {
      assert any[i] in any;
    }
  }

  /** The triggered rules are the ones that apply, each where it stands between those of the rules around it. */
  lemma {:induction false} TriggeredExactly(rt: Runtime, a: seq<Rule>, r: Rule, b: seq<Rule>, data: seq<Member>)
    ensures Triggered(rt, a + [r] + b, data) ==
      Triggered(rt, a, data) + (if Applies(rt, r, data) then [r] else []) + Triggered(rt, b, data)
    decreases |a|
  {
    hide GroupHolds, Applies;
    if a == [] {
      assert a + [r] + b == [r] + b && ([r] + b)[1..] == b;
      GroupApplies(rt, r, data);
    } else {
      assert (a + [r] + b)[1..] == a[1..] + [r] + b;
      TriggeredExactly(rt, a[1..], r, b, data);
    }
  }

  /** An order comparison that meets an integer too large for a float before an operand that does not convert. */
  ghost predicate Interrupts(rt: Runtime, c: Condition, data: seq<Member>) {
    && c.operator in {Gt, Gte, Lt, Lte}
    && exists actual :: LiesAt(Obj(data), SplitOn(c.field, '.'), actual)
                        && (TooLarge(actual) || (ToFloat(rt, actual).Some? && TooLarge(c.value)))
  }

  /** `float(v)` overflows: an integer that rounds to 2^1024 or more. */
  predicate TooLarge(v: Json) {
    v.Int? && !IsSafe(v.n) && !Converts(v.n)
  }

  lemma InterruptsExactly(rt: Runtime, c: Condition, data: seq<Member>)
    ensures ConditionRaises(rt, c, data) <==> Interrupts(rt, c, data)
  {
    hide LiesAt, SplitOn, Lookup, ToFloat, Converted, Converts;
    var found := Lookup(Obj(data), Split(c.field));
    forall actual | LiesAt(Obj(data), SplitOn(c.field, '.'), actual) ensures found == Some(actual) {
      LookupExactly(Obj(data), Split(c.field), actual);
    }
    forall v ensures Overflows(v) <==> TooLarge(v) {
      if v.Int? {
        ConvertedIsFinite(v.n);
      }
    }
    if found.Some? {
      LookupExactly(Obj(data), Split(c.field), found.value);
    }
  }

  /** Condition i raises, after conditions that left the outcome open. */
  ghost predicate InterruptedAt(rt: Runtime, cs: seq<Condition>, i: nat, stop: bool, data: seq<Member>) {
    i < |cs| && Interrupts(rt, cs[i], data) && forall j :: 0 <= j < i ==> (Met(rt, cs[j], data) <==> !stop)
  }

  lemma {:induction false} RaisesAt(rt: Runtime, cs: seq<Condition>, stop: bool, data: seq<Member>)
    ensures RaisesBefore(rt, cs, stop, data) <==> exists i: nat :: InterruptedAt(rt, cs, i, stop, data)
  {
    hide ConditionRaises, Interrupts, Holds, Met;
    if cs != [] {
      RaisesAt(rt, cs[1..], stop, data);
      InterruptsExactly(rt, cs[0], data);
      HoldsExactly(rt, cs[0], data);
      if ConditionRaises(rt, cs[0], data) {
        assert InterruptedAt(rt, cs, 0, stop, data);
      } else if RaisesBefore(rt, cs, stop, data) {
        var i: nat :| InterruptedAt(rt, cs[1..], i, stop, data);
        assert forall j :: 1 <= j < i + 1 ==> cs[j] == cs[1..][j - 1];
        assert InterruptedAt(rt, cs, i + 1, stop, data);
      }
      if i: nat :| InterruptedAt(rt, cs, i, stop, data) {
        if i > 0 {
          assert Met(rt, cs[0], data) <==> !stop;
          assert forall j :: 0 <= j < i - 1 ==> cs[1..][j] == cs[j + 1];
          assert InterruptedAt(rt, cs[1..], i - 1, stop, data);
        }
      }
    }
  }

  /**
   Evaluating the rules raises exactly when in some rule a comparison meets an integer too large for a
   float, while every `all` condition before it is met, or no `any` condition before it is.
   */
  lemma RaisesExactly(rt: Runtime, rules: seq<Rule>, data: seq<Member>)
    ensures RulesRaise(rt, rules, data) <==>
      exists r, i: nat :: r in rules && (InterruptedAt(rt, r.condition.all, i, false, data)
                                    || InterruptedAt(rt, r.condition.any, i, true, data))
  {
    hide RaisesBefore, InterruptedAt;
    forall r | r in rules
      ensures GroupRaises(rt, r.condition, data) <==>
        exists i: nat :: InterruptedAt(rt, r.condition.all, i, false, data)
                    || InterruptedAt(rt, r.condition.any, i, true, data)
    {
      RaisesAt(rt, r.condition.all, false, data);
      RaisesAt(rt, r.condition.any, true, data);
    }
  }

  // ---------- the verified namespace ----------

  /** `{**request.model_dump(), "verified": facts}`. */
  function RuleData(dump: seq<Member>, facts: seq<Member>): seq<Member> {
    Put(dump, "verified", Obj(facts))
  }

  /** The condition reads `verified` or something below it. */
  predicate ReadsVerified(c: Condition) {
    Split(c.field)[0] == "verified"
  }

  ghost predicate UsesNamespace(rules: seq<Rule>, verified: bool) {
    exists i, c :: 0 <= i < |rules| && (c in rules[i].condition.all || c in rules[i].condition.any)
                   && ReadsVerified(c) == verified
  }

  lemma SameLookup(ms: seq<Member>, ns: seq<Member>, parts: seq<string>)
    requires parts != [] && Get(ms, parts[0]) == Get(ns, parts[0])
    ensures Lookup(Obj(ms), parts) == Lookup(Obj(ns), parts)
  {
    hide Get;
  }

  /** A `verified` condition sees nothing of the request; any other sees nothing of the facts. */
  lemma ConditionStaysInItsNamespace(rt: Runtime, c: Condition, dump: seq<Member>, facts: seq<Member>,
                                     dump': seq<Member>, facts': seq<Member>)
    requires if ReadsVerified(c) then facts == facts' else dump == dump'
    ensures Holds(rt, c, RuleData(dump, facts)) <==> Holds(rt, c, RuleData(dump', facts'))
    ensures ConditionRaises(rt, c, RuleData(dump, facts)) <==> ConditionRaises(rt, c, RuleData(dump', facts'))
  {
    hide PyEq, ListHas, ContainsValue, NumericCompare, ToFloat, Overflows, Lookup, Split;
    SameLookup(RuleData(dump, facts), RuleData(dump', facts'), Split(c.field));
  }

  ghost predicate SameOutcomes(rt: Runtime, cs: seq<Condition>, data: seq<Member>, data': seq<Member>) {
    forall c :: c in cs ==>
      && (Holds(rt, c, data) <==> Holds(rt, c, data'))
      && (ConditionRaises(rt, c, data) <==> ConditionRaises(rt, c, data'))
  }

  lemma {:induction false} SameRaising(rt: Runtime, cs: seq<Condition>, stop: bool, data: seq<Member>,
                                       data': seq<Member>)
    requires SameOutcomes(rt, cs, data, data')
    ensures RaisesBefore(rt, cs, stop, data) <==> RaisesBefore(rt, cs, stop, data')
  {
    hide Holds, ConditionRaises;
    if cs != [] {
      SameRaising(rt, cs[1..], stop, data, data');
    }
  }

  lemma SameGroup(rt: Runtime, g: Group, data: seq<Member>, data': seq<Member>)
    requires SameOutcomes(rt, g.all, data, data') && SameOutcomes(rt, g.any, data, data')
    ensures GroupHolds(rt, g, data) <==> GroupHolds(rt, g, data')
    ensures GroupRaises(rt, g, data) <==> GroupRaises(rt, g, data')
  {
    hide Holds, ConditionRaises;
    SameRaising(rt, g.all, false, data, data');
    SameRaising(rt, g.any, true, data, data');
  }

  /**
   Which rules trigger, and whether evaluating them raises, depends on the request only through
   conditions outside `verified`, and on the signed facts only through conditions inside it.
   */
  lemma {:induction false} NamespaceNonInterference(rt: Runtime, rules: seq<Rule>, dump: seq<Member>,
                                                    facts: seq<Member>, dump': seq<Member>, facts': seq<Member>)
    requires UsesNamespace(rules, true) ==> facts == facts'
    requires UsesNamespace(rules, false) ==> dump == dump'
    ensures Triggered(rt, rules, RuleData(dump, facts)) == Triggered(rt, rules, RuleData(dump', facts'))
    ensures RulesRaise(rt, rules, RuleData(dump, facts)) <==> RulesRaise(rt, rules, RuleData(dump', facts'))
  {
    hide GroupHolds, GroupRaises, Holds, ConditionRaises, RuleData;
    if rules != [] {
      var g := rules[0].condition;
      var data, data' := RuleData(dump, facts), RuleData(dump', facts');
      forall c | c in g.all || c in g.any
        ensures Holds(rt, c, data) <==> Holds(rt, c, data')
        ensures ConditionRaises(rt, c, data) <==> ConditionRaises(rt, c, data')
      {
        assert UsesNamespace(rules, ReadsVerified(c));
        ConditionStaysInItsNamespace(rt, c, dump, facts, dump', facts');
      }
      SameGroup(rt, g, data, data');
      forall verified | UsesNamespace(rules[1..], verified) ensures UsesNamespace(rules, verified) {
        var i, c :| 0 <= i < |rules[1..]| && (c in rules[1..][i].condition.all || c in rules[1..][i].condition.any)
                    && ReadsVerified(c) == verified;
        assert rules[i + 1] == rules[1..][i];
      }
      NamespaceNonInterference(rt, rules[1..], dump, facts, dump', facts');
      RaisesFirst(rt, rules, data);
      RaisesFirst(rt, rules, data');
    }
  }

  lemma RaisesFirst(rt: Runtime, rules: seq<Rule>, data: seq<Member>)
    requires rules != []
    ensures RulesRaise(rt, rules, data)
      <==> GroupRaises(rt, rules[0].condition, data) || RulesRaise(rt, rules[1..], data)
  {
    hide GroupRaises;
    assert forall r :: r in rules <==> r == rules[0] || r in rules[1..];
  }
}
