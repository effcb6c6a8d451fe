/**
 The order of object keys: by the bytes of their UTF-16BE encoding, which is the order of their
 16-bit code units, and the sort of a dict's members in that order.
 */
module KeyOrder {
  import opened JsonValues

  // ---------- UTF-16 ----------

  /** The 16-bit code units of one Unicode scalar value: one, or a surrogate pair. */
  function CharUnits(c: char): (us: seq<int>)
    ensures 1 <= |us| <= 2 && forall i :: 0 <= i < |us| ==> 0 <= us[i] < 0x1_0000
  {
    var n := c as int;
    if n < 0x1_0000 then [n]
    else [0xD800 + (n - 0x1_0000) / 0x400, 0xDC00 + (n - 0x1_0000) % 0x400]
  }

  function Units(s: string): (us: seq<int>)
    ensures forall i :: 0 <= i < |us| ==> 0 <= us[i] < 0x1_0000
  {
    if s == [] then [] else CharUnits(s[0]) + Units(s[1..])
  }

  /** Each code unit as two bytes, the high one first. */
  function BigEndian(us: seq<int>): seq<int> {
    if us == [] then [] else [us[0] / 0x100, us[0] % 0x100] + BigEndian(us[1..])
  }

  /** Python's `s.encode("utf-16-be")`. */
  function Utf16Be(s: string): seq<int> {
    BigEndian(Units(s))
  }

  /** The UTF-16 form of a character: itself below U+10000, else a surrogate pair whose halves give it back. */
  lemma CharUnitsExactly(c: char)
    ensures var us, n := CharUnits(c), c as int;
      if n < 0x1_0000 then us == [n]
      else
        && |us| == 2 && 0xD800 <= us[0] < 0xDC00 && 0xDC00 <= us[1] < 0xE000
        && n == 0x1_0000 + (us[0] - 0xD800) * 0x400 + (us[1] - 0xDC00)
  {
  }

  lemma {:induction false} UnitsInjective(s: string, t: string)
    requires Units(s) == Units(t)
    ensures s == t
  {
    if s != [] && t != [] {
      var u := Units(s);
      assert u[0] == CharUnits(s[0])[0] && u[0] == CharUnits(t[0])[0];
      assert |CharUnits(s[0])| == 2 ==> u[1] == CharUnits(s[0])[1];
      assert |CharUnits(t[0])| == 2 ==> u[1] == CharUnits(t[0])[1];
      assert s[0] as int == t[0] as int;
      var k := |CharUnits(s[0])|;
      assert Units(s[1..]) == u[k..] == Units(t[1..]);
      UnitsInjective(s[1..], t[1..]);
    }
  }

  // ---------- lexicographic order ----------

  predicate LexLeq(a: seq<int>, b: seq<int>) {
    a == [] || (b != [] && (a[0] < b[0] || (a[0] == b[0] && LexLeq(a[1..], b[1..]))))
  }

  lemma LexTotal(a: seq<int>, b: seq<int>)
    ensures LexLeq(a, b) || LexLeq(b, a)
  {
  }

  lemma {:induction false} LexAntisymmetric(a: seq<int>, b: seq<int>)
    requires LexLeq(a, b) && LexLeq(b, a)
    ensures a == b
  {
    if a != [] {
      LexAntisymmetric(a[1..], b[1..]);
    }
  }

  lemma {:induction false} LexTransitive(a: seq<int>, b: seq<int>, c: seq<int>)
    requires LexLeq(a, b) && LexLeq(b, c)
    ensures LexLeq(a, c)
  {
    if a != [] && a[0] == b[0] && b[0] == c[0] {
      LexTransitive(a[1..], b[1..], c[1..]);
    }
  }

  /** Comparing UTF-16BE bytes is comparing 16-bit code units. */
  lemma {:induction false} ByteOrderIsUnitOrder(us: seq<int>, vs: seq<int>)
    requires forall i :: 0 <= i < |us| ==> 0 <= us[i] < 0x1_0000
    requires forall i :: 0 <= i < |vs| ==> 0 <= vs[i] < 0x1_0000
    ensures LexLeq(BigEndian(us), BigEndian(vs)) <==> LexLeq(us, vs)
  {
    if us != [] && vs != [] {
      ByteOrderIsUnitOrder(us[1..], vs[1..]);
      var a, b := BigEndian(us), BigEndian(vs);
      assert a[1..][1..] == BigEndian(us[1..]) && b[1..][1..] == BigEndian(vs[1..]);
      assert LexLeq(a, b) <==> a[0] < b[0] || (a[0] == b[0] && LexLeq(a[1..], b[1..]));
      assert us[0] == 0x100 * a[0] + a[1] && vs[0] == 0x100 * b[0] + b[1];
    }
  }

  // ---------- keys ----------

  predicate KeyLeq(a: string, b: string) {
    LexLeq(Utf16Be(a), Utf16Be(b))
  }

  lemma KeyLeqAntisymmetric(a: string, b: string)
    requires KeyLeq(a, b) && KeyLeq(b, a)
    ensures a == b
  {
    ByteOrderIsUnitOrder(Units(a), Units(b));
    ByteOrderIsUnitOrder(Units(b), Units(a));
    LexAntisymmetric(Units(a), Units(b));
    UnitsInjective(a, b);
  }

  lemma KeyLeqTransitive(a: string, b: string, c: string)
    requires KeyLeq(a, b) && KeyLeq(b, c)
    ensures KeyLeq(a, c)
  {
    LexTransitive(Utf16Be(a), Utf16Be(b), Utf16Be(c));
  }

  ghost predicate SortedByKey(ms: seq<Member>) {
    forall i, j :: 0 <= i < j < |ms| ==> KeyLeq(ms[i].key, ms[j].key)
  }

  // ---------- sorted(items, key=...) ----------

  function Insert(m: Member, ms: seq<Member>): (r: seq<Member>)
    ensures |r| == |ms| + 1 && forall x :: x in r <==> x == m || x in ms
  {
    if ms == [] then [m]
    else if KeyLeq(m.key, ms[0].key) then [m] + ms
    else assert ms == [ms[0]] + ms[1..]; [ms[0]] + Insert(m, ms[1..])
  }

  /** Python's stable `sorted` of the dict items by UTF-16BE key bytes. */
  function SortMembers(ms: seq<Member>): (r: seq<Member>)
    ensures |r| == |ms| && forall x :: x in r <==> x in ms
  {
    if ms == [] then [] else Insert(ms[0], SortMembers(ms[1..]))
  }

  lemma {:induction false} InsertKeepsSorted(m: Member, ms: seq<Member>)
    requires SortedByKey(ms)
    ensures SortedByKey(Insert(m, ms))
  {
    if ms == [] {
    } else if KeyLeq(m.key, ms[0].key) {
      forall i | 0 <= i < |ms| ensures KeyLeq(m.key, ms[i].key) {
        if i > 0 { KeyLeqTransitive(m.key, ms[0].key, ms[i].key); }
      }
    } else {
      LexTotal(Utf16Be(m.key), Utf16Be(ms[0].key));
      var tail := Insert(m, ms[1..]);
      InsertKeepsSorted(m, ms[1..]);
      forall i | 0 <= i < |tail| ensures KeyLeq(ms[0].key, tail[i].key) {
        assert tail[i] in tail;
      }
    }
  }

  lemma {:induction false} SortMembersSorts(ms: seq<Member>)
    ensures SortedByKey(SortMembers(ms))
  {
    if ms != [] {
      SortMembersSorts(ms[1..]);
      InsertKeepsSorted(ms[0], SortMembers(ms[1..]));
    }
  }

  lemma {:induction false} InsertKeepsDistinct(m: Member, ms: seq<Member>)
    requires DistinctKeys(ms) && forall x :: x in ms ==> x.key != m.key
    ensures DistinctKeys(Insert(m, ms))
  {
    if ms != [] && !KeyLeq(m.key, ms[0].key) {
      var tail := Insert(m, ms[1..]);
      InsertKeepsDistinct(m, ms[1..]);
      forall i | 0 <= i < |tail| ensures tail[i].key != ms[0].key {
        assert tail[i] in tail;
      }
    }
  }

  lemma {:induction false} SortMembersKeepsDistinct(ms: seq<Member>)
    requires DistinctKeys(ms)
    ensures DistinctKeys(SortMembers(ms))
  {
    if ms != [] {
      SortMembersKeepsDistinct(ms[1..]);
      InsertKeepsDistinct(ms[0], SortMembers(ms[1..]));
    }
  }

  predicate HasKey(ms: seq<Member>, key: string) {
    exists i :: 0 <= i < |ms| && ms[i].key == key
  }

  /** Two sorted dicts with the same keys have them in the same places. */
  lemma {:induction false} SortedKeysAgree(a: seq<Member>, b: seq<Member>)
    requires SortedByKey(a) && DistinctKeys(a) && SortedByKey(b) && DistinctKeys(b)
    requires forall k :: HasKey(a, k) <==> HasKey(b, k)
    ensures |a| == |b| && forall i :: 0 <= i < |a| ==> a[i].key == b[i].key
  {
    if a == [] {
      assert b != [] ==> HasKey(b, b[0].key);
    } else {
      assert HasKey(a, a[0].key);
      var j :| 0 <= j < |b| && b[j].key == a[0].key;
      assert HasKey(b, b[0].key);
      var i :| 0 <= i < |a| && a[i].key == b[0].key;
      if i > 0 && j > 0 { KeyLeqAntisymmetric(a[0].key, b[0].key); }
      assert a[0].key == b[0].key;
      forall k ensures HasKey(a[1..], k) <==> HasKey(b[1..], k) {
        TailKeys(a, k);
        TailKeys(b, k);
      }
      SortedKeysAgree(a[1..], b[1..]);
      assert forall i :: 1 <= i < |a| ==> a[i] == a[1..][i - 1] && b[i] == b[1..][i - 1];
    }
  }

  lemma TailKeys(ms: seq<Member>, k: string)
    requires ms != [] && DistinctKeys(ms)
    ensures HasKey(ms[1..], k) <==> HasKey(ms, k) && k != ms[0].key
  {
    if HasKey(ms, k) && k != ms[0].key {
      var i :| 0 <= i < |ms| && ms[i].key == k;
      assert ms[1..][i - 1].key == k;
    }
  }

  // ---------- key sets ----------

  /** Distinct keys, equally many, all of the one among the other: the same keys. */
  lemma KeysAmongAreAll(ms: seq<Member>, ns: seq<Member>)
    requires DistinctKeys(ms) && DistinctKeys(ns) && |ms| == |ns|
    requires forall i :: 0 <= i < |ms| ==> HasKey(ns, ms[i].key)
    ensures forall k :: HasKey(ms, k) <==> HasKey(ns, k)
  {
    var a := set i | 0 <= i < |ms| :: ms[i].key;
    var b := set j | 0 <= j < |ns| :: ns[j].key;
    KeySetSize(ms);
    KeySetSize(ns);
    forall k | k in a ensures k in b {
      var i :| 0 <= i < |ms| && ms[i].key == k;
      assert HasKey(ns, ms[i].key);
    }
    SubsetOfSameSize(a, b);
    forall k ensures HasKey(ms, k) <==> HasKey(ns, k) {
      assert HasKey(ms, k) <==> k in a;
      assert HasKey(ns, k) <==> k in b;
    }
  }

  lemma {:induction false} KeySetSize(ms: seq<Member>)
    requires DistinctKeys(ms)
    ensures |set i | 0 <= i < |ms| :: ms[i].key| == |ms|
  {
    var s := set i | 0 <= i < |ms| :: ms[i].key;
    if ms != [] {
      var n := |ms| - 1;
      var init := ms[..n];
      KeySetSize(init);
      var t := set i | 0 <= i < |init| :: init[i].key;
      assert forall i :: 0 <= i < n ==> init[i] == ms[i];
      assert s == t + {ms[n].key};
    }
  }

  lemma SubsetOfSameSize<T>(a: set<T>, b: set<T>)
    requires a <= b && |a| == |b|
    ensures a == b
  {
    assert |b - a| == |b| - |a|;
    assert b == a + (b - a);
  }
}
