/** The audit file as text: what a record is written as, and which lines its reader sees. */
module AuditText {
  import opened Numerals
  import opened JsonValues
  import opened KeyOrder
  import opened CanonicalString
  import NumberNotation

  // ---------- lines ----------

  /** The three line ends that `json.dumps` leaves as they are: U+0085, U+2028 and U+2029. */
  predicate IsSeparator(c: char) {
    c == '\U{0085}' || c == '\U{2028}' || c == '\U{2029}'
  }

  /** What `str.splitlines` ends a line at. */
  predicate IsBreak(c: char) {
    0x0A <= c as int <= 0x0D || 0x1C <= c as int <= 0x1E || IsSeparator(c)
  }

  predicate NoBreaks(s: string) {
    forall c :: c in s ==> !IsBreak(c)
  }

  /**
   `s.splitlines()`, with the line so far: a carriage return and a line feed are one end, the last line
   needs none.
   */
  function LinesFrom(line: string, s: string): seq<string>
    decreases |s|
  {
    if s == "" then if line == "" then [] else [line]
    else if IsBreak(s[0]) then [line] + LinesFrom("", if "\r\n" <= s then s[2..] else s[1..])
    else LinesFrom(line + [s[0]], s[1..])
  }

  function SplitLines(s: string): seq<string> {
    LinesFrom("", s)
  }

  /** The file after these lines were written. */
  function FileText(texts: seq<string>): string {
    if texts == [] then "" else texts[0] + ("\n" + FileText(texts[1..]))
  }

  lemma {:induction false} LineReads(line: string, text: string, rest: string)
    requires NoBreaks(text)
    ensures LinesFrom(line, text + ("\n" + rest)) == [line + text] + LinesFrom("", rest)
    decreases |text|
  {
    var s := text + ("\n" + rest);
    if text == "" {
      assert s == "\n" + rest && s[1..] == rest && line + text == line;
      assert s[0] == '\n' && !("\r\n" <= s);
    } else {
      assert s[0] == text[0] && text[0] in text;
      assert s[1..] == text[1..] + ("\n" + rest);
      LineReads(line + [text[0]], text[1..], rest);
      assert line + [text[0]] + text[1..] == line + text;
    }
  }

  lemma {:induction false} LinesHoldNoBreaks(line: string, s: string)
    requires NoBreaks(line)
    ensures forall t :: t in LinesFrom(line, s) ==> NoBreaks(t)
    decreases |s|
  {
    hide IsBreak;
    if s != "" {
      if IsBreak(s[0]) {
        LinesHoldNoBreaks("", if "\r\n" <= s then s[2..] else s[1..]);
      } else {
        LinesHoldNoBreaks(line + [s[0]], s[1..]);
      }
    }
  }

  /** Texts written line by line are read back as those lines exactly when none of them holds a line end. */
  lemma {:induction false} FramedExactly(texts: seq<string>)
    ensures SplitLines(FileText(texts)) == texts <==> forall t :: t in texts ==> NoBreaks(t)
  {
    if forall t :: t in texts ==> NoBreaks(t) {
      if texts != [] {
        FramedExactly(texts[1..]);
        LineReads("", texts[0], FileText(texts[1..]));
        assert "" + texts[0] == texts[0];
        assert texts == [texts[0]] + texts[1..];
      }
    }
    if SplitLines(FileText(texts)) == texts {
      LinesHoldNoBreaks("", FileText(texts));
    }
  }

  /** A character ends a line exactly when it is one of these ten. */
  lemma LineEndsExactly(c: char)
    ensures SplitLines("a" + ([c] + "b")) == ["a", "b"]
      <==> c as int in {0x0A, 0x0B, 0x0C, 0x0D, 0x1C, 0x1D, 0x1E, 0x85, 0x2028, 0x2029}
  {
    var tail := [c] + "b";
    var s := "a" + tail;
    assert !IsBreak('a') && !IsBreak('b');
    assert s[1..] == tail && tail[1..] == "b" && "b"[1..] == "";
    assert "" + [s[0]] == "a" && LinesFrom("", s) == LinesFrom("a", tail);
    if IsBreak(c) {
      assert "" + ['b'] == "b";
      assert LinesFrom("", "b") == LinesFrom("b", "");
      assert LinesFrom("b", "") == ["b"];
      assert LinesFrom("a", tail) == ["a"] + ["b"];
    } else {
      assert LinesFrom("a", tail) == LinesFrom("a" + [c], "b") == LinesFrom("a" + [c] + ['b'], "");
      assert |SplitLines(s)| == 1;
    }
  }

  // ---------- a record's text ----------

  function CodePoints(s: string): seq<int> {
    seq(|s|, i requires 0 <= i < |s| => s[i] as int)
  }

  function InsertByKey(m: Member, ms: seq<Member>): (r: seq<Member>)
    ensures forall x :: x in r <==> x == m || x in ms
  {
    if ms == [] then [m]
    else if LexLeq(CodePoints(m.key), CodePoints(ms[0].key)) then [m] + ms
    else [ms[0]] + InsertByKey(m, ms[1..])
  }

  /** `sort_keys=True`: by code points. */
  function SortByKey(ms: seq<Member>): (r: seq<Member>)
    ensures forall x :: x in r <==> x in ms
  {
    if ms == [] then [] else InsertByKey(ms[0], SortByKey(ms[1..]))
  }

  /** `", ".join(texts)`. */
  function JoinSpaced(texts: seq<string>): string {
    if texts == [] then ""
    else if |texts| == 1 then texts[0]
    else texts[0] + (", " + JoinSpaced(texts[1..]))
  }

  /** `json.dumps(v, sort_keys=True, ensure_ascii=False)`, given the texts of floats. */
  function Dumps(repr: Float -> string, v: Json): string
    decreases v
  {
    match v
    case Null => "null"
    case Bool(b) => if b then "true" else "false"
    case Str(s) => Quote(s)
    case Int(n) => IntNumeral(n)
    case Float(f) => repr(f)
    case Arr(es) => "[" + JoinSpaced(seq(|es|, i requires 0 <= i < |es| => Dumps(repr, es[i]))) + "]"
    case Obj(ms) =>
      var items := SortByKey(ms);
      "{" + JoinSpaced(seq(|items|, i requires 0 <= i < |items| =>
        assert items[i] in items && items[i] in ms;
        Quote(items[i].key) + ": " + Dumps(repr, items[i].value))) + "}"
  }

  /** Members in ascending order of their keys' code points. */
  ghost predicate Ascending(ms: seq<Member>) {
    forall i, j :: 0 <= i < j < |ms| ==> LexLeq(CodePoints(ms[i].key), CodePoints(ms[j].key))
  }

  lemma {:induction false} InsertKeepsAscending(m: Member, ms: seq<Member>)
    requires Ascending(ms)
    ensures Ascending(InsertByKey(m, ms)) && |InsertByKey(m, ms)| == |ms| + 1
  {
    hide LexLeq, CodePoints;
    if ms != [] {
      LexTotal(CodePoints(m.key), CodePoints(ms[0].key));
      if LexLeq(CodePoints(m.key), CodePoints(ms[0].key)) {
        forall j | 0 < j < |ms| ensures LexLeq(CodePoints(m.key), CodePoints(ms[j].key)) {
          LexTransitive(CodePoints(m.key), CodePoints(ms[0].key), CodePoints(ms[j].key));
        }
      } else {
        var tail := InsertByKey(m, ms[1..]);
        InsertKeepsAscending(m, ms[1..]);
        forall j | 0 <= j < |tail| ensures LexLeq(CodePoints(ms[0].key), CodePoints(tail[j].key)) {
          assert tail[j] in tail;
          if tail[j] != m {
            var i :| 0 <= i < |ms[1..]| && ms[1..][i] == tail[j];
          }
        }
      }
    }
  }

  /** A record's members are written in ascending order of their keys, none lost or repeated. */
  lemma {:induction false} SortByKeySorts(ms: seq<Member>)
    ensures Ascending(SortByKey(ms)) && |SortByKey(ms)| == |ms|
  {
    if ms != [] {
      SortByKeySorts(ms[1..]);
      InsertKeepsAscending(ms[0], SortByKey(ms[1..]));
    }
  }

  /** The texts of literals, and of an array and a dict of two, with spaces after commas and colons. */
  lemma DumpsExactly(repr: Float -> string, a: Json, b: Json, k: string, l: string)
    requires LexLeq(CodePoints(k), CodePoints(l))
    ensures Dumps(repr, Null) == "null" && Dumps(repr, Bool(true)) == "true" && Dumps(repr, Bool(false)) == "false"
    ensures Dumps(repr, Arr([a, b])) == "[" + (Dumps(repr, a) + (", " + Dumps(repr, b))) + "]"
    ensures Dumps(repr, Obj([Member(k, a), Member(l, b)])) ==
      "{" + (Quote(k) + ": " + Dumps(repr, a) + (", " + (Quote(l) + ": " + Dumps(repr, b)))) + "}"
  {
    var ms := [Member(k, a), Member(l, b)];
    hide Quote, LexLeq, CodePoints;
    assert ms[1..] == [ms[1]] && [ms[1]][1..] == [];
    assert SortByKey([ms[1]]) == [ms[1]];
    assert SortByKey(ms) == ms;
    ObjectText(repr, ms);
    JoinOfTwo(MemberTexts(repr, ms));
    var texts := seq(2, i requires 0 <= i < 2 => Dumps(repr, [a, b][i]));
    JoinOfTwo(texts);
  }

  lemma JoinOfTwo(texts: seq<string>)
    requires |texts| == 2
    ensures JoinSpaced(texts) == texts[0] + (", " + texts[1])
  {
    assert texts[1..] == [texts[1]];
  }

  predicate Separated(s: string) {
    exists c :: c in s && IsSeparator(c)
  }

  /** Some string in it, a key or a value, holds one of the three separators. */
  predicate HoldsSeparator(v: Json) {
    match v
    case Str(s) => Separated(s)
    case Arr(es) => exists i :: 0 <= i < |es| && HoldsSeparator(es[i])
    case Obj(ms) => exists i :: 0 <= i < |ms| && (Separated(ms[i].key) || HoldsSeparator(ms[i].value))
    case _ => false
  }

  lemma {:induction false} QuoteBreaks(s: string)
    ensures NoBreaks(Quote(s)) <==> !Separated(s)
  {
    EscapeBreaks(s);
    NoBreaksConcat("\"", Escape(s));
    NoBreaksConcat("\"" + Escape(s), "\"");
  }

  lemma {:induction false} EscapeBreaks(s: string)
    ensures NoBreaks(Escape(s)) <==> !Separated(s)
  {
    hide NoBreaks, EscapeChar;
    if s == [] {
      NothingBreaks();
    } else {
      EscapeBreaks(s[1..]);
      NoBreaksConcat(EscapeChar(s[0]), Escape(s[1..]));
      CharBreaks(s[0]);
      assert forall c :: c in s <==> c == s[0] || c in s[1..];
    }
  }

  lemma NothingBreaks()
    ensures NoBreaks("")
  {
  }

  lemma CharBreaks(c: char)
    ensures NoBreaks(EscapeChar(c)) <==> !IsSeparator(c)
  {
    EscapedChar(c);
    if NeedsEscape(c) {
      EscapesArePlain(c);
    } else {
      assert c in EscapeChar(c);
    }
  }

  lemma EscapesArePlain(c: char)
    requires NeedsEscape(c)
    ensures NoBreaks(EscapeChar(c)) && !IsSeparator(c)
  {
  }

  lemma NoBreaksConcat(a: string, b: string)
    ensures NoBreaks(a + b) <==> NoBreaks(a) && NoBreaks(b)
  {
    hide IsBreak;
    assert forall c :: c in a + b <==> c in a || c in b;
  }

  lemma {:induction false} JoinBreaks(texts: seq<string>)
    ensures NoBreaks(JoinSpaced(texts)) <==> forall t :: t in texts ==> NoBreaks(t)
  {
    hide NoBreaks;
    if texts == [] {
      NothingBreaks();
    } else if |texts| > 1 {
      JoinBreaks(texts[1..]);
      PlainText(", ");
      NoBreaksConcat(", ", JoinSpaced(texts[1..]));
      NoBreaksConcat(texts[0], ", " + JoinSpaced(texts[1..]));
      assert forall t :: t in texts <==> t == texts[0] || t in texts[1..];
    }
  }

  /** Printable ASCII has no line ends. */
  lemma PlainText(s: string)
    requires forall c :: c in s ==> ' ' <= c <= '~'
    ensures NoBreaks(s)
  {
  }

  predicate MemberHolds(m: Member) {
    Separated(m.key) || HoldsSeparator(m.value)
  }

  lemma NumeralBreaks(n: int)
    ensures NoBreaks(IntNumeral(n))
  {
    NumberNotation.TextIsDigits(Digits(if n < 0 then -n else n));
    PlainText(IntNumeral(n));
  }

  lemma Bracketed(open: string, text: string, close: string)
    requires forall c :: c in open + close ==> ' ' <= c <= '~'
    ensures NoBreaks(open + text + close) <==> NoBreaks(text)
  {
    hide NoBreaks;
    assert forall c :: c in open ==> c in open + close;
    assert forall c :: c in close ==> c in open + close;
    PlainText(open);
    PlainText(close);
    NoBreaksConcat(open, text);
    NoBreaksConcat(open + text, close);
  }

  lemma MemberBreaks(repr: Float -> string, m: Member)
    requires NoBreaks(Dumps(repr, m.value)) <==> !HoldsSeparator(m.value)
    ensures NoBreaks(Quote(m.key) + ": " + Dumps(repr, m.value)) <==> !MemberHolds(m)
  {
    hide NoBreaks, Dumps, HoldsSeparator, Quote, Separated;
    QuoteBreaks(m.key);
    PlainText(": ");
    NoBreaksConcat(Quote(m.key), ": ");
    NoBreaksConcat(Quote(m.key) + ": ", Dumps(repr, m.value));
  }

  /** A record is written without a line end exactly when no string in it holds U+0085, U+2028 or U+2029. */
  lemma {:induction false} DumpsBreaks(repr: Float -> string, v: Json)
    requires forall f :: NoBreaks(repr(f))
    ensures NoBreaks(Dumps(repr, v)) <==> !HoldsSeparator(v)
    decreases v
  {
    match v
    case Str(s) => QuoteBreaks(s);
    case Int(n) => NumeralBreaks(n);
    case Arr(es) => ArrayBreaks(repr, v);
    case Obj(ms) => ObjectBreaks(repr, v);
    case Null => PlainText("null");
    case Bool(_) => PlainText("true"); PlainText("false");
    case _ =>
  }

  lemma {:induction false} ArrayBreaks(repr: Float -> string, v: Json)
    requires v.Arr? && forall f :: NoBreaks(repr(f))
    ensures NoBreaks(Dumps(repr, v)) <==> !HoldsSeparator(v)
    decreases v, 0
  {
    hide NoBreaks, IsBreak;
    var es := v.elements;
    var texts := seq(|es|, i requires 0 <= i < |es| => Dumps(repr, es[i]));
    forall i | 0 <= i < |es| ensures NoBreaks(texts[i]) <==> !HoldsSeparator(es[i]) {
      DumpsBreaks(repr, es[i]);
    }
    JoinBreaks(texts);
    Bracketed("[", JoinSpaced(texts), "]");
    assert forall i :: 0 <= i < |texts| ==> texts[i] in texts;
  }

  function MemberTexts(repr: Float -> string, items: seq<Member>): (r: seq<string>)
    ensures |r| == |items|
  {
    seq(|items|, i requires 0 <= i < |items| => Quote(items[i].key) + ": " + Dumps(repr, items[i].value))
  }

  lemma ObjectText(repr: Float -> string, ms: seq<Member>)
    ensures Dumps(repr, Obj(ms)) == "{" + JoinSpaced(MemberTexts(repr, SortByKey(ms))) + "}"
  {
    var items := SortByKey(ms);
    assert MemberTexts(repr, items) == seq(|items|, i requires 0 <= i < |items| =>
      assert items[i] in items && items[i] in ms; Quote(items[i].key) + ": " + Dumps(repr, items[i].value));
  }

  lemma TextsBreak(repr: Float -> string, items: seq<Member>)
    requires forall m :: m in items ==> (NoBreaks(Dumps(repr, m.value)) <==> !HoldsSeparator(m.value))
    ensures (forall t :: t in MemberTexts(repr, items) ==> NoBreaks(t)) <==> forall m :: m in items ==> !MemberHolds(m)
  {
    hide NoBreaks, MemberHolds, Dumps, HoldsSeparator, Quote;
    var texts := MemberTexts(repr, items);
    forall i | 0 <= i < |items|
      ensures texts[i] in texts && items[i] in items && (NoBreaks(texts[i]) <==> !MemberHolds(items[i]))
    {
      MemberBreaks(repr, items[i]);
    }
  }

  lemma {:induction false} ObjectBreaks(repr: Float -> string, v: Json)
    requires v.Obj? && forall f :: NoBreaks(repr(f))
    ensures NoBreaks(Dumps(repr, v)) <==> !HoldsSeparator(v)
    decreases v, 0
  {
    hide NoBreaks, MemberHolds, Dumps, HoldsSeparator, MemberTexts;
    var items := SortByKey(v.members);
    forall m | m in items ensures NoBreaks(Dumps(repr, m.value)) <==> !HoldsSeparator(m.value) {
      assert m in v.members;
      DumpsBreaks(repr, m.value);
    }
    ObjectText(repr, v.members);
    TextsBreak(repr, items);
    JoinBreaks(MemberTexts(repr, items));
    Bracketed("{", JoinSpaced(MemberTexts(repr, items)), "}");
    HoldsByMember(v);
  }

  lemma HoldsByMember(v: Json)
    requires v.Obj?
    ensures HoldsSeparator(v) <==> exists m :: m in v.members && MemberHolds(m)
  {
    if HoldsSeparator(v) {
      var i :| 0 <= i < |v.members| && (Separated(v.members[i].key) || HoldsSeparator(v.members[i].value));
      assert MemberHolds(v.members[i]);
    }
  }

  function RecordTexts(repr: Float -> string, entries: seq<seq<Member>>): (r: seq<string>)
    ensures |r| == |entries|
  {
    seq(|entries|, i requires 0 <= i < |entries| => Dumps(repr, Obj(entries[i])))
  }

  /**
   The verifier's `splitlines` sees the records of a file as they were written exactly when no string in
   them holds U+0085, U+2028 or U+2029.
   */
  lemma RecordsFramedExactly(repr: Float -> string, entries: seq<seq<Member>>)
    requires forall f :: NoBreaks(repr(f))
    ensures SplitLines(FileText(RecordTexts(repr, entries))) == RecordTexts(repr, entries)
      <==> forall i :: 0 <= i < |entries| ==> !HoldsSeparator(Obj(entries[i]))
  {
    hide NoBreaks, HoldsSeparator, Dumps, SplitLines, FileText;
    var texts := RecordTexts(repr, entries);
    FramedExactly(texts);
    forall i | 0 <= i < |entries| ensures NoBreaks(texts[i]) <==> !HoldsSeparator(Obj(entries[i])) {
      DumpsBreaks(repr, Obj(entries[i]));
    }
    assert forall i :: 0 <= i < |texts| ==> texts[i] in texts;
  }
}
