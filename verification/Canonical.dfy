/**
 `canonical_json`: the text whose hash binds a Passport to a payload. A strict JSON reader undoes
 it, so two trees print the same text exactly when they are the same JSON.
 */
module Canonical {
  import opened Results
  import opened Parsing
  import opened Doubles
  import opened Numerals
  import opened JsonValues
  import opened KeyOrder
  import opened CanonicalNumber
  import opened CanonicalString

  // ---------- the printer ----------

  /** `",".join(texts)`. */
  function Join(texts: seq<string>): string {
    if texts == [] then ""
    else if |texts| == 1 then texts[0]
    else texts[0] + "," + Join(texts[1..])
  }

  function Print(v: Json): string
    requires Printable(v)
    decreases v
  {
    match v
    case Null => "null"
    case Bool(b) => if b then "true" else "false"
    case Str(s) => Quote(s)
    case Int(n) => if IsSafe(n) then IntNumeral(n) else EsNumber(Converted(n))
    case Float(f) => EsNumber(f)
    case Obj(ms) =>
      var items := SortMembers(ms);
      "{" + Join(seq(|items|, i requires 0 <= i < |items| =>
        assert items[i] in ms; Quote(items[i].key) + ":" + Print(items[i].value))) + "}"
    case Arr(es) =>
      "[" + Join(seq(|es|, i requires 0 <= i < |es| => Print(es[i]))) + "]"
  }

  datatype Error = ValueError

  /** `canonical_json`: NaN and infinities raise. */
  function CanonicalJson(v: Json): Result<string, Error> {
    if Printable(v) then Ok(Print(v)) else Err(ValueError)
  }

  // ---------- the reader: RFC 8259 without insignificant whitespace ----------

  function ReadValue(s: string): (r: Parsed<Json>)
    ensures r.Done? ==> |r.rest| < |s|
    decreases |s|, 2
  {
    if s == "" then Fail
    else if s[0] == '"' then
      match ReadString(s)
      case Fail => Fail
      case Done(t, rest) => Done(Str(t), rest)
    else if s[0] == '[' then ReadArray(s[1..])
    else if s[0] == '{' then ReadObject(s[1..])
    else if IsDigit(s[0]) || s[0] == '-' then
      match ReadNumber(s)
      case Fail => Fail
      case Done(f, rest) => Done(Float(f), rest)
    else ReadLiteral(s)
  }

  function ReadLiteral(s: string): (r: Parsed<Json>)
    ensures r.Done? ==> |r.rest| < |s|
  {
    if "null" <= s then Done(Null, s[4..])
    else if "true" <= s then Done(Bool(true), s[4..])
    else if "false" <= s then Done(Bool(false), s[5..])
    else Fail
  }

  function ReadArray(s: string): (r: Parsed<Json>)
    ensures r.Done? ==> |r.rest| < |s|
    decreases |s|, 5
  {
    if s != "" && s[0] == ']' then Done(Arr([]), s[1..])
    else
      match ReadElements(s)
      case Fail => Fail
      case Done(es, rest) => Done(Arr(es), rest)
  }

  /** One or more elements and the closing bracket. */
  function ReadElements(s: string): (r: Parsed<seq<Json>>)
    ensures r.Done? ==> |r.rest| < |s|
    decreases |s|, 3
  {
    match ReadValue(s)
    case Fail => Fail
    case Done(v, t) =>
      if t != "" && t[0] == ',' then
        match ReadElements(t[1..])
        case Fail => Fail
        case Done(vs, rest) => Done([v] + vs, rest)
      else if t != "" && t[0] == ']' then Done([v], t[1..])
      else Fail
  }

  function ReadObject(s: string): (r: Parsed<Json>)
    ensures r.Done? ==> |r.rest| < |s|
    decreases |s|, 5
  {
    if s != "" && s[0] == '}' then Done(Obj([]), s[1..])
    else
      match ReadMembers(s)
      case Fail => Fail
      case Done(ms, rest) => Done(Obj(ms), rest)
  }

  function ReadMember(s: string): (r: Parsed<Member>)
    ensures r.Done? ==> |r.rest| < |s|
    decreases |s|, 3
  {
    match ReadString(s)
    case Fail => Fail
    case Done(k, t) =>
      if t != "" && t[0] == ':' then
        match ReadValue(t[1..])
        case Fail => Fail
        case Done(v, rest) => Done(Member(k, v), rest)
      else Fail
  }

  /** One or more members and the closing brace. */
  function ReadMembers(s: string): (r: Parsed<seq<Member>>)
    ensures r.Done? ==> |r.rest| < |s|
    decreases |s|, 4
  {
    match ReadMember(s)
    case Fail => Fail
    case Done(m, t) =>
      if t != "" && t[0] == ',' then
        match ReadMembers(t[1..])
        case Fail => Fail
        case Done(ms, rest) => Done([m] + ms, rest)
      else if t != "" && t[0] == '}' then Done([m], t[1..])
      else Fail
  }

  // ---------- the round trip ----------

  /** The tree a reader of the canonical text sees: members sorted, numbers in normal form. */
  function Canon(v: Json): Json
    requires Printable(v)
    decreases v
  {
    match v
    case Int(n) => Float(Converted(n))
    case Float(f) => Float(CanonFloat(f))
    case Arr(es) => Arr(seq(|es|, i requires 0 <= i < |es| => Canon(es[i])))
    case Obj(ms) =>
      var items := SortMembers(ms);
      Obj(seq(|items|, i requires 0 <= i < |items| =>
        assert items[i] in ms; Member(items[i].key, Canon(items[i].value))))
    case _ => v
  }

  /** The texts of members in the order given. */
  function MemberTexts(ms: seq<Member>): (ts: seq<string>)
    requires PrintableMembers(ms)
    ensures |ts| == |ms|
  {
    seq(|ms|, i requires 0 <= i < |ms| => Quote(ms[i].key) + ":" + Print(ms[i].value))
  }

  function CanonMembers(ms: seq<Member>): (r: seq<Member>)
    requires PrintableMembers(ms)
    ensures |r| == |ms|
  {
    seq(|ms|, i requires 0 <= i < |ms| => Member(ms[i].key, Canon(ms[i].value)))
  }

  function ElementTexts(es: seq<Json>): (ts: seq<string>)
    requires forall i :: 0 <= i < |es| ==> Printable(es[i])
    ensures |ts| == |es|
  {
    seq(|es|, i requires 0 <= i < |es| => Print(es[i]))
  }

  function CanonElements(es: seq<Json>): (r: seq<Json>)
    requires forall i :: 0 <= i < |es| ==> Printable(es[i])
    ensures |r| == |es|
  {
    seq(|es|, i requires 0 <= i < |es| => Canon(es[i]))
  }

  lemma UnfoldObj(ms: seq<Member>)
    requires Printable(Obj(ms))
    ensures PrintableMembers(SortMembers(ms))
    ensures Print(Obj(ms)) == "{" + Join(MemberTexts(SortMembers(ms))) + "}"
    ensures Canon(Obj(ms)) == Obj(CanonMembers(SortMembers(ms)))
  {
    var items := SortMembers(ms);
    forall i | 0 <= i < |items| ensures Printable(items[i].value) {
      assert items[i] in items;
    }
    assert MemberTexts(items) == seq(|items|, i requires 0 <= i < |items| =>
        assert items[i] in ms; Quote(items[i].key) + ":" + Print(items[i].value));
    assert CanonMembers(items) == seq(|items|, i requires 0 <= i < |items| =>
        assert items[i] in ms; Member(items[i].key, Canon(items[i].value)));
  }

  lemma UnfoldArr(es: seq<Json>)
    requires Printable(Arr(es))
    ensures Print(Arr(es)) == "[" + Join(ElementTexts(es)) + "]"
    ensures Canon(Arr(es)) == Arr(CanonElements(es))
  {
    assert ElementTexts(es) == seq(|es|, i requires 0 <= i < |es| => Print(es[i]));
    assert CanonElements(es) == seq(|es|, i requires 0 <= i < |es| => Canon(es[i]));
  }

  lemma JoinStep(texts: seq<string>, tail: string)
    requires |texts| > 1
    ensures Join(texts) + tail == texts[0] + ("," + (Join(texts[1..]) + tail))
  {
  }

  /** Reading a canonical text gives the tree back, sorted and normalized, and leaves what follows. */
  lemma {:induction false} RoundTrip(v: Json, rest: string)
    requires Printable(v) && EndsNumber(rest)
    ensures ReadValue(Print(v) + rest) == Done(Canon(v), rest)
    decreases v, 0
  {
    match v
    case Null => assert (Print(v) + rest)[4..] == rest;
    case Bool(b) => assert (Print(v) + rest)[|Print(v)|..] == rest;
    case Str(s) =>
      StringRoundTrip(s, rest);
      assert (Print(v) + rest)[0] == '"';
    case Int(n) =>
      PrintOfNumber(v);
      NumberReads(Converted(n), rest);
    case Float(f) => NumberReads(f, rest);
    case Arr(es) => ArrayRoundTrip(v, rest);
    case Obj(ms) => ObjectRoundTrip(v, rest);
  }

  lemma ReadsAsNumber(s: string, f: Float, rest: string)
    requires s != "" && (IsDigit(s[0]) || s[0] == '-')
    requires ReadNumber(s) == Done(f, rest)
    ensures ReadValue(s) == Done(Float(f), rest)
  {
  }

  lemma NumberReads(f: Float, rest: string)
    requires f.Finite() && EndsNumber(rest)
    ensures ReadValue(EsNumber(f) + rest) == Done(Float(CanonFloat(f)), rest)
  {
    var s := EsNumber(f) + rest;
    assert s != "" && (IsDigit(s[0]) || s[0] == '-') by {
      NumberTextStarts(f);
    }
    assert ReadNumber(s) == Done(CanonFloat(f), rest) by {
      NumberRoundTrip(f, rest);
    }
    ReadsAsNumber(s, CanonFloat(f), rest);
  }

  lemma {:induction false} ArrayRoundTrip(v: Json, rest: string)
    requires v.Arr? && Printable(v) && EndsNumber(rest)
    ensures ReadValue(Print(v) + rest) == Done(Canon(v), rest)
    decreases v, 0, 1
  {
    hide ReadValue, ReadElements, Print, Canon, ElementTexts, CanonElements;
    var es := v.elements;
    UnfoldArr(es);
    var body := Join(ElementTexts(es)) + ("]" + rest);
    assert Print(v) + rest == "[" + body;
    if es == [] {
      assert body == "]" + rest;
      assert body[1..] == rest;
      ReadsAsArray(body, [], rest);
    } else {
      ElementsRoundTrip(v, es, rest);
      ElementTextsStart(es, "]" + rest);
      ReadsAsArray(body, CanonElements(es), rest);
    }
  }

  lemma ReadsAsArray(body: string, es: seq<Json>, rest: string)
    requires body != ""
    requires if body[0] == ']' then es == [] && rest == body[1..] else ReadElements(body) == Done(es, rest)
    ensures ReadValue("[" + body) == Done(Arr(es), rest)
  {
    hide ReadElements;
    assert ("[" + body)[1..] == body;
  }

  /** No value's text starts with a closing bracket. */
  lemma TextStarts(v: Json)
    requires Printable(v)
    ensures Print(v) != "" && Print(v)[0] != ']' && Print(v)[0] != '}'
  {
    match v
    case Int(n) => PrintOfNumber(v); NumberTextStarts(Converted(n));
    case Float(f) => NumberTextStarts(f);
    case _ =>
  }

  lemma ElementTextsStart(es: seq<Json>, tail: string)
    requires es != [] && forall i :: 0 <= i < |es| ==> Printable(es[i])
    ensures Join(ElementTexts(es)) + tail != "" && (Join(ElementTexts(es)) + tail)[0] != ']'
  {
    TextStarts(es[0]);
  }

  lemma LastElementReads(s: string, v: Json, rest: string)
    requires ReadValue(s) == Done(v, "]" + rest)
    ensures ReadElements(s) == Done([v], rest)
  {
    hide ReadValue;
    assert ("]" + rest)[1..] == rest;
  }

  lemma MoreElementsRead(s: string, v: Json, more: string, vs: seq<Json>, rest: string)
    requires ReadValue(s) == Done(v, "," + more)
    requires ReadElements(more) == Done(vs, rest)
    ensures ReadElements(s) == Done([v] + vs, rest)
  {
    hide ReadValue;
    assert ("," + more)[1..] == more;
  }

  lemma {:induction false} ElementsRoundTrip(parent: Json, es: seq<Json>, rest: string)
    requires es != [] && forall i :: 0 <= i < |es| ==> Printable(es[i]) && es[i] < parent
    ensures ReadElements(Join(ElementTexts(es)) + ("]" + rest)) == Done(CanonElements(es), rest)
    decreases parent, 0, 0, |es|
  {
    hide ReadValue, ReadElements, Print, Canon;
    var texts := ElementTexts(es);
    var tail := "]" + rest;
    if |es| == 1 {
      RoundTrip(es[0], tail);
      LastElementReads(Print(es[0]) + tail, Canon(es[0]), rest);
      assert CanonElements(es) == [Canon(es[0])];
    } else {
      var more := Join(ElementTexts(es[1..])) + tail;
      assert texts[1..] == ElementTexts(es[1..]);
      JoinStep(texts, tail);
      RoundTrip(es[0], "," + more);
      ElementsRoundTrip(parent, es[1..], rest);
      MoreElementsRead(Join(texts) + tail, Canon(es[0]), more, CanonElements(es[1..]), rest);
      assert CanonElements(es) == [Canon(es[0])] + CanonElements(es[1..]);
    }
  }

  lemma {:induction false} ObjectRoundTrip(v: Json, rest: string)
    requires v.Obj? && Printable(v) && EndsNumber(rest)
    ensures ReadValue(Print(v) + rest) == Done(Canon(v), rest)
    decreases v, 0, 1
  {
    hide ReadValue, ReadMembers, Print, Canon, MemberTexts, CanonMembers;
    var ms := SortMembers(v.members);
    UnfoldObj(v.members);
    var body := Join(MemberTexts(ms)) + ("}" + rest);
    assert Print(v) + rest == "{" + body;
    if ms == [] {
      assert body == "}" + rest;
      assert body[1..] == rest;
      ReadsAsObject(body, [], rest);
    } else {
      forall i | 0 <= i < |ms| ensures ms[i].value < v {
        assert ms[i] in v.members;
      }
      MembersRoundTrip(v, ms, rest);
      MemberTextsStart(ms, "}" + rest);
      ReadsAsObject(body, CanonMembers(ms), rest);
    }
  }

  lemma MemberTextsStart(ms: seq<Member>, tail: string)
    requires ms != [] && PrintableMembers(ms)
    ensures Join(MemberTexts(ms)) + tail != "" && (Join(MemberTexts(ms)) + tail)[0] == '"'
  {
    assert MemberTexts(ms)[0][0] == '"';
  }

  lemma ReadsAsObject(body: string, ms: seq<Member>, rest: string)
    requires body != ""
    requires if body[0] == '}' then ms == [] && rest == body[1..] else ReadMembers(body) == Done(ms, rest)
    ensures ReadValue("{" + body) == Done(Obj(ms), rest)
  {
    hide ReadMembers;
    assert ("{" + body)[1..] == body;
  }

  lemma MemberReads(m: Member, rest: string)
    requires Printable(m.value)
    requires ReadValue(Print(m.value) + rest) == Done(Canon(m.value), rest)
    ensures ReadMember(Quote(m.key) + ":" + Print(m.value) + rest) == Done(Member(m.key, Canon(m.value)), rest)
  {
    hide ReadValue, Print, Canon, Quote, ReadString;
    var t := ":" + (Print(m.value) + rest);
    StringRoundTrip(m.key, t);
    assert Quote(m.key) + ":" + Print(m.value) + rest == Quote(m.key) + t;
    assert t[1..] == Print(m.value) + rest;
  }

  lemma LastMemberReads(s: string, m: Member, rest: string)
    requires ReadMember(s) == Done(m, "}" + rest)
    ensures ReadMembers(s) == Done([m], rest)
  {
    hide ReadMember;
    assert ("}" + rest)[1..] == rest;
  }

  lemma MoreMembersRead(s: string, m: Member, more: string, ms: seq<Member>, rest: string)
    requires ReadMember(s) == Done(m, "," + more)
    requires ReadMembers(more) == Done(ms, rest)
    ensures ReadMembers(s) == Done([m] + ms, rest)
  {
    hide ReadMember;
    assert ("," + more)[1..] == more;
  }

  lemma {:induction false} MembersRoundTrip(parent: Json, ms: seq<Member>, rest: string)
    requires ms != [] && PrintableMembers(ms) && forall i :: 0 <= i < |ms| ==> ms[i].value < parent
    ensures ReadMembers(Join(MemberTexts(ms)) + ("}" + rest)) == Done(CanonMembers(ms), rest)
    decreases parent, 0, 0, |ms|
  {
    hide ReadValue, ReadMembers, ReadMember, Print, Canon, Quote;
    var texts := MemberTexts(ms);
    var tail := "}" + rest;
    var first := Member(ms[0].key, Canon(ms[0].value));
    if |ms| == 1 {
      RoundTrip(ms[0].value, tail);
      MemberReads(ms[0], tail);
      LastMemberReads(texts[0] + tail, first, rest);
      assert CanonMembers(ms) == [first];
    } else {
      var more := Join(MemberTexts(ms[1..])) + tail;
      assert texts[1..] == MemberTexts(ms[1..]);
      JoinStep(texts, tail);
      RoundTrip(ms[0].value, "," + more);
      MemberReads(ms[0], "," + more);
      MembersRoundTrip(parent, ms[1..], rest);
      MoreMembersRead(texts[0] + ("," + more), first, more, CanonMembers(ms[1..]), rest);
      assert CanonMembers(ms) == [first] + CanonMembers(ms[1..]);
    }
  }

  // ---------- the same text exactly for the same JSON ----------

  lemma {:induction false} CanonOfEquiv(v: Json, w: Json)
    requires WellFormed(v) && WellFormed(w) && Printable(v) && Printable(w)
    ensures Equiv(v, w) <==> Canon(v) == Canon(w)
    decreases v, 0
  {
    match v
    case Arr(es) =>
      UnfoldArr(es);
      if w.Arr? {
        UnfoldArr(w.elements);
        var fs := w.elements;
        forall i | 0 <= i < |es| && i < |fs|
          ensures Equiv(es[i], fs[i]) <==> CanonElements(es)[i] == CanonElements(fs)[i] {
          CanonOfEquiv(es[i], fs[i]);
        }
      }
    case Obj(ms) =>
      UnfoldObj(ms);
      if w.Obj? {
        UnfoldObj(w.members);
        CanonOfEquivObjects(v, w);
        assert Equiv(v, w) <==> MatchedByKey(ms, w.members);
      }
    case Int(_) => CanonOfEquivNumbers(v, w);
    case Float(_) => CanonOfEquivNumbers(v, w);
    case _ =>
  }

  lemma CanonOfEquivNumbers(v: Json, w: Json)
    requires IsNumber(v) && Printable(w)
    ensures Equiv(v, w) <==> Canon(v) == Canon(w)
  {
    CanonOfNumber(v);
    if IsNumber(w) {
      CanonOfNumber(w);
      SameNumberIsSameNormalForm(NumberOf(v), NumberOf(w));
    }
  }

  lemma CanonOfNumber(v: Json)
    requires IsNumber(v)
    ensures Canon(v) == Float(Normalize(NumberOf(v).mantissa, NumberOf(v).exp))
  {
    NormalFormOf(if v.Float? then v.f else Converted(v.n));
  }

  lemma {:induction false} CanonOfEquivObjects(v: Json, w: Json)
    requires v.Obj? && w.Obj? && WellFormed(v) && WellFormed(w) && Printable(v) && Printable(w)
    requires PrintableMembers(SortMembers(v.members)) && PrintableMembers(SortMembers(w.members))
    ensures MatchedByKey(v.members, w.members)
       <==> CanonMembers(SortMembers(v.members)) == CanonMembers(SortMembers(w.members))
    decreases v, 0, 0
  {
    forall m, n | m in v.members && n in w.members
      ensures Equiv(m.value, n.value) <==> Canon(m.value) == Canon(n.value) {
      CanonOfEquiv(m.value, n.value);
    }
    if MatchedByKey(v.members, w.members) {
      CanonOfMatched(v.members, w.members);
    }
    if CanonMembers(SortMembers(v.members)) == CanonMembers(SortMembers(w.members)) {
      MatchedFromCanon(v.members, w.members);
    }
  }

  lemma CanonOfMatched(ms: seq<Member>, ns: seq<Member>)
    requires DistinctKeys(ms) && DistinctKeys(ns) && MatchedByKey(ms, ns)
    requires PrintableMembers(ms) && PrintableMembers(ns)
    requires PrintableMembers(SortMembers(ms)) && PrintableMembers(SortMembers(ns))
    requires forall m, n :: m in ms && n in ns ==> (Equiv(m.value, n.value) <==> Canon(m.value) == Canon(n.value))
    ensures CanonMembers(SortMembers(ms)) == CanonMembers(SortMembers(ns))
  {
    var a, b := SortMembers(ms), SortMembers(ns);
    SameKeys(ms, ns);
    SortedSameKeys(ms, ns);
    SortMembersSorts(ms);
    SortMembersSorts(ns);
    SortMembersKeepsDistinct(ms);
    SortMembersKeepsDistinct(ns);
    SortedKeysAgree(a, b);
    var ca, cb := CanonMembers(a), CanonMembers(b);
    forall i | 0 <= i < |a| ensures ca[i] == cb[i] {
      assert a[i] in ms && b[i] in ns;
      EquivByKey(ms, ns, a[i], b[i]);
    }
  }

  lemma MatchedFromCanon(ms: seq<Member>, ns: seq<Member>)
    requires PrintableMembers(ms) && PrintableMembers(ns)
    requires PrintableMembers(SortMembers(ms)) && PrintableMembers(SortMembers(ns))
    requires forall m, n :: m in ms && n in ns ==> (Equiv(m.value, n.value) <==> Canon(m.value) == Canon(n.value))
    requires CanonMembers(SortMembers(ms)) == CanonMembers(SortMembers(ns))
    ensures MatchedByKey(ms, ns)
  {
    var a, b := SortMembers(ms), SortMembers(ns);
    var ca, cb := CanonMembers(a), CanonMembers(b);
    forall i | 0 <= i < |ms| ensures EquivMember(ms[i], ns) {
      assert ms[i] in a;
      var k :| 0 <= k < |a| && a[k] == ms[i];
      assert ca[k] == cb[k];
      assert b[k] in ns;
      var j :| 0 <= j < |ns| && ns[j] == b[k];
    }
    assert |ms| == |ca| == |cb| == |ns|;
  }

  ghost predicate MatchedByKey(ms: seq<Member>, ns: seq<Member>) {
    && |ms| == |ns|
    && forall i :: 0 <= i < |ms| ==> EquivMember(ms[i], ns)
  }

  lemma SameKeys(ms: seq<Member>, ns: seq<Member>)
    requires DistinctKeys(ms) && DistinctKeys(ns) && MatchedByKey(ms, ns)
    ensures forall k :: HasKey(ms, k) <==> HasKey(ns, k)
  {
    forall i | 0 <= i < |ms| ensures HasKey(ns, ms[i].key) {
      assert EquivMember(ms[i], ns);
      var j :| 0 <= j < |ns| && ms[i].key == ns[j].key && Equiv(ms[i].value, ns[j].value);
    }
    KeysAmongAreAll(ms, ns);
  }

  lemma SortedSameKeys(ms: seq<Member>, ns: seq<Member>)
    requires forall k :: HasKey(ms, k) <==> HasKey(ns, k)
    ensures forall k :: HasKey(SortMembers(ms), k) <==> HasKey(SortMembers(ns), k)
  {
    forall k ensures HasKey(SortMembers(ms), k) <==> HasKey(SortMembers(ns), k) {
      SortedHasKey(ms, k);
      SortedHasKey(ns, k);
    }
  }

  lemma SortedHasKey(ms: seq<Member>, k: string)
    ensures HasKey(SortMembers(ms), k) <==> HasKey(ms, k)
  {
    var r := SortMembers(ms);
    if HasKey(ms, k) {
      var i :| 0 <= i < |ms| && ms[i].key == k;
      assert ms[i] in r;
    }
    if HasKey(r, k) {
      var i :| 0 <= i < |r| && r[i].key == k;
      assert r[i] in ms;
    }
  }

  lemma EquivByKey(ms: seq<Member>, ns: seq<Member>, m: Member, n: Member)
    requires DistinctKeys(ns) && MatchedByKey(ms, ns) && m in ms && n in ns && m.key == n.key
    ensures Equiv(m.value, n.value)
  {
    var i :| 0 <= i < |ms| && ms[i] == m;
    assert EquivMember(ms[i], ns);
    var j :| 0 <= j < |ns| && ms[i].key == ns[j].key && Equiv(ms[i].value, ns[j].value);
    var k :| 0 <= k < |ns| && ns[k] == n;
    assert j == k;
  }

  /** The text depends on the canonical tree alone. */
  lemma {:induction false} PrintOfCanon(v: Json, w: Json)
    requires Printable(v) && Printable(w) && Canon(v) == Canon(w)
    ensures Print(v) == Print(w)
    decreases v, 0
  {
    match v
    case Arr(es) =>
      UnfoldArr(es);
      UnfoldArr(w.elements);
      forall i | 0 <= i < |es| ensures ElementTexts(es)[i] == ElementTexts(w.elements)[i] {
        assert CanonElements(es)[i] == CanonElements(w.elements)[i];
        PrintOfCanon(es[i], w.elements[i]);
      }
      assert ElementTexts(es) == ElementTexts(w.elements);
    case Obj(ms) =>
      UnfoldObj(ms);
      UnfoldObj(w.members);
      var a, b := SortMembers(ms), SortMembers(w.members);
      forall i | 0 <= i < |a| ensures MemberTexts(a)[i] == MemberTexts(b)[i] {
        assert CanonMembers(a)[i] == CanonMembers(b)[i];
        assert a[i] in ms;
        PrintOfCanon(a[i].value, b[i].value);
      }
      assert MemberTexts(a) == MemberTexts(b);
    case Int(_) => PrintOfNumber(v); PrintOfNumber(w);
    case Float(_) => PrintOfNumber(v); PrintOfNumber(w);
    case _ =>
  }

  lemma PrintOfNumber(v: Json)
    requires IsNumber(v)
    ensures Canon(v).Float? && Canon(v).f.Finite() && Print(v) == EsNumber(Canon(v).f)
  {
    if v.Int? && IsSafe(v.n) {
      IntBranchAgrees(v.n);
    }
  }

  /** Two trees print the same text exactly when they are equal up to member order and numeric value. */
  lemma SameTextIffSameJson(v: Json, w: Json)
    requires WellFormed(v) && WellFormed(w) && Printable(v) && Printable(w)
    ensures Print(v) == Print(w) <==> Equiv(v, w)
  {
    CanonOfEquiv(v, w);
    if Print(v) == Print(w) {
      RoundTrip(v, "");
      RoundTrip(w, "");
    }
    if Canon(v) == Canon(w) {
      PrintOfCanon(v, w);
    }
  }

  /** Dicts with the same items print the same text, whatever order they were inserted in. */
  lemma InsertionOrderIrrelevant(ms: seq<Member>, ns: seq<Member>)
    requires WellFormed(Obj(ms)) && WellFormed(Obj(ns)) && Printable(Obj(ms))
    requires |ms| == |ns| && forall m :: m in ms ==> m in ns
    ensures Printable(Obj(ns)) && Print(Obj(ms)) == Print(Obj(ns))
  {
    forall i | 0 <= i < |ms| ensures EquivMember(ms[i], ns) {
      assert ms[i] in ns;
      var j :| 0 <= j < |ns| && ns[j] == ms[i];
      EquivReflexive(ms[i].value);
    }
    assert MatchedByKey(ms, ns);
    SameKeys(ms, ns);
    forall j | 0 <= j < |ns| ensures Printable(ns[j].value) {
      assert HasKey(ns, ns[j].key);
      var i :| 0 <= i < |ms| && ms[i].key == ns[j].key;
      assert ms[i] in ns;
      var k :| 0 <= k < |ns| && ns[k] == ms[i];
      assert k == j;
    }
    SameTextIffSameJson(Obj(ms), Obj(ns));
  }

  /** Dicts of one member print the same text when its value does. */
  lemma SameTextOfMember(ms: seq<Member>, ns: seq<Member>)
    requires |ms| == 1 && |ns| == 1 && ms[0].key == ns[0].key && PrintableMembers(ms) && PrintableMembers(ns)
    requires Print(ms[0].value) == Print(ns[0].value)
    ensures Print(Obj(ms)) == Print(Obj(ns))
  {
    hide Print;
    assert ms[1..] == [] && ns[1..] == [];
    assert SortMembers(ms) == ms && SortMembers(ns) == ns;
    UnfoldObj(ms);
    UnfoldObj(ns);
  }
}
