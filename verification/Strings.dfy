/** Splitting and joining strings on a separator character. */
module Strings {

  /** `s.split(sep)`. */
  function SplitOn(s: string, sep: char): (parts: seq<string>)
    ensures parts != []
    decreases |s|
  {
    if s == "" then [""]
    else
      var rest := SplitOn(s[1..], sep);
      if s[0] == sep then [""] + rest else [[s[0]] + rest[0]] + rest[1..]
  }

  lemma {:induction false} WholeOf(s: string, sep: char)
    requires sep !in s
    ensures SplitOn(s, sep) == [s]
    decreases |s|
  {
    if s != "" {
      WholeOf(s[1..], sep);
      assert [s][1..] == [] && s == [s[0]] + s[1..];
    }
  }

  /**
   The parts of `b` are the first parts of `t` exactly when `t` is `b`, or continues it after a
   separator.
   */
  lemma {:induction false} PartsPrefix(b: string, t: string, sep: char)
    ensures SplitOn(b, sep) <= SplitOn(t, sep) <==> t == b || b + [sep] <= t
    decreases |b|
  {
    if b == "" {
      assert SplitOn(t, sep)[0] == "" <==> t == "" || t[0] == sep;
      assert "" + [sep] <= t <==> t != "" && t[0] == sep;
    } else if t == "" {
      assert SplitOn(b, sep) == if b[0] == sep then [""] + SplitOn(b[1..], sep)
                                else [[b[0]] + SplitOn(b[1..], sep)[0]] + SplitOn(b[1..], sep)[1..];
      assert b[0] == sep ==> |SplitOn(b, sep)| >= 2;
      assert b[0] != sep ==> SplitOn(b, sep)[0] != "";
      assert |SplitOn(b, sep)| >= 1 && SplitOn(t, sep) == [""];
    } else {
      PartsPrefix(b[1..], t[1..], sep);
      PartsStep(b, t, sep);
      assert (b + [sep])[1..] == b[1..] + [sep];
      PrefixStep(b + [sep], t);
      assert t == b <==> b[0] == t[0] && t[1..] == b[1..] by {
        assert b == [b[0]] + b[1..] && t == [t[0]] + t[1..];
      }
    }
  }

  lemma PrefixStep(a: string, t: string)
    requires a != "" && t != ""
    ensures a <= t <==> a[0] == t[0] && a[1..] <= t[1..]
  {
    if a[0] == t[0] && a[1..] <= t[1..] {
      assert forall i :: 1 <= i < |a| ==> a[i] == a[1..][i - 1] && t[i] == t[1..][i - 1];
    }
    if a <= t {
      assert forall i :: 0 <= i < |a| ==> a[i] == t[i];
    }
  }

  lemma PartsStep(b: string, t: string, sep: char)
    requires b != "" && t != ""
    ensures SplitOn(b, sep) <= SplitOn(t, sep)
      <==> b[0] == t[0] && SplitOn(b[1..], sep) <= SplitOn(t[1..], sep)
  {
    var bs, ts := SplitOn(b[1..], sep), SplitOn(t[1..], sep);
    var allB, allT := SplitOn(b, sep), SplitOn(t, sep);
    if b[0] == sep {
      assert allB[1..] == bs;
      if t[0] == sep {
        assert allT[1..] == ts;
        ListPrefixStep(allB, allT);
      } else {
        assert allT[0] != "";
      }
    } else {
      assert allB[0] == [b[0]] + bs[0] && allB[1..] == bs[1..];
      if t[0] != sep {
        assert allT[0] == [t[0]] + ts[0] && allT[1..] == ts[1..];
        ListPrefixStep(allB, allT);
        ListPrefixStep(bs, ts);
        assert allB[0] == allT[0] <==> b[0] == t[0] && bs[0] == ts[0] by {
          assert allB[0][0] == b[0] && allB[0][1..] == bs[0];
          assert allT[0][0] == t[0] && allT[0][1..] == ts[0];
        }
      } else {
        assert allT[0] == "";
      }
    }
  }

  lemma ListPrefixStep(a: seq<string>, t: seq<string>)
    requires a != [] && t != []
    ensures a <= t <==> a[0] == t[0] && a[1..] <= t[1..]
  {
    if a[0] == t[0] && a[1..] <= t[1..] {
      assert forall i :: 1 <= i < |a| ==> a[i] == a[1..][i - 1] && t[i] == t[1..][i - 1];
    }
    if a <= t {
      assert forall i :: 0 <= i < |a| ==> a[i] == t[i];
    }
  }

  // ---------- splitting undoes joining ----------

  /** `sep.join(parts)`. */
  function JoinOn(parts: seq<string>, sep: char): string {
    if parts == [] then ""
    else if |parts| == 1 then parts[0]
    else parts[0] + [sep] + JoinOn(parts[1..], sep)
  }

  /** The parts hold no separator, and joined they are the text. */
  lemma {:induction false} JoinOfSplit(s: string, sep: char)
    ensures JoinOn(SplitOn(s, sep), sep) == s
    ensures forall i :: 0 <= i < |SplitOn(s, sep)| ==> sep !in SplitOn(s, sep)[i]
    decreases |s|
  {
    if s != "" {
      var rest := SplitOn(s[1..], sep);
      var parts := SplitOn(s, sep);
      JoinOfSplit(s[1..], sep);
      assert s == [s[0]] + s[1..];
      if s[0] == sep {
        assert parts[1..] == rest;
      } else {
        assert parts[1..] == rest[1..];
        assert sep !in rest[0];
      }
    }
  }

  /** Only these parts, joined, give the text. */
  lemma {:induction false} SplitOfJoin(parts: seq<string>, sep: char)
    requires parts != [] && forall i :: 0 <= i < |parts| ==> sep !in parts[i]
    ensures SplitOn(JoinOn(parts, sep), sep) == parts
    decreases |parts|
  {
    if |parts| == 1 {
      WholeOf(parts[0], sep);
    } else {
      SplitOfJoin(parts[1..], sep);
      FirstPart(parts[0], JoinOn(parts[1..], sep), sep);
      assert parts[0] + [sep] + JoinOn(parts[1..], sep) == parts[0] + ([sep] + JoinOn(parts[1..], sep));
      assert parts == [parts[0]] + parts[1..];
    }
  }

  lemma {:induction false} FirstPart(part: string, rest: string, sep: char)
    requires sep !in part
    ensures SplitOn(part + ([sep] + rest), sep) == [part] + SplitOn(rest, sep)
    decreases |part|
  {
    var s := part + ([sep] + rest);
    if part == "" {
      assert s == [sep] + rest && s[1..] == rest;
    } else {
      assert s[1..] == part[1..] + ([sep] + rest);
      FirstPart(part[1..], rest, sep);
      assert ([part[1..]] + SplitOn(rest, sep))[1..] == SplitOn(rest, sep);
      assert part == [part[0]] + part[1..];
    }
  }
}
