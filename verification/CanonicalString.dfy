/** `json.dumps(value, ensure_ascii=False)` on strings, and a JSON string reader that undoes it. */
module CanonicalString {
  import opened Parsing
  import opened Results

  function HexChar(d: int): (c: char)
    requires 0 <= d < 16
  {
    if d < 10 then (d + 48) as char else (d + 87) as char
  }

  function HexValue(c: char): (r: Option<int>)
    ensures r.Some? ==> 0 <= r.value < 16
  {
    if '0' <= c <= '9' then Some(c as int - 48)
    else if 'a' <= c <= 'f' then Some(c as int - 87)
    else if 'A' <= c <= 'F' then Some(c as int - 55)
    else None
  }

  /** The text of one character inside a string literal: RFC 8785 section 3.2.2.2. */
  function EscapeChar(c: char): string {
    match c
    case '"' => "\\\""
    case '\\' => "\\\\"
    case '\n' => "\\n"
    case '\r' => "\\r"
    case '\t' => "\\t"
    case _ =>
      if c as int == 8 then "\\b"
      else if c as int == 12 then "\\f"
      else if c as int < 0x20 then "\\u00" + [HexChar(c as int / 16), HexChar(c as int % 16)]
      else [c]
  }

  function Escape(s: string): string {
    if s == [] then [] else EscapeChar(s[0]) + Escape(s[1..])
  }

  /** `_string`. */
  function Quote(s: string): string {
    "\"" + Escape(s) + "\""
  }

  // ---------- the reader: RFC 8259 strings ----------

  function ReadHex4(s: string): (r: Option<int>)
    ensures r.Some? ==> |s| >= 4 && 0 <= r.value < 0x1_0000
  {
    if |s| < 4 then None
    else
      match (HexValue(s[0]), HexValue(s[1]), HexValue(s[2]), HexValue(s[3]))
      case (Some(a), Some(b), Some(c), Some(d)) => Some(0x1000 * a + 0x100 * b + 0x10 * c + d)
      case _ => None
  }

  /** One escape sequence after its backslash; a lone surrogate is refused. */
  function ReadEscape(s: string): (r: Parsed<char>)
    ensures r.Done? ==> |r.rest| < |s|
  {
    if s == [] then Fail
    else
      match s[0]
      case '"' => Done('"', s[1..])
      case '\\' => Done('\\', s[1..])
      case '/' => Done('/', s[1..])
      case 'b' => Done(8 as char, s[1..])
      case 'f' => Done(12 as char, s[1..])
      case 'n' => Done('\n', s[1..])
      case 'r' => Done('\r', s[1..])
      case 't' => Done('\t', s[1..])
      case 'u' =>
        var h := ReadHex4(s[1..]);
        if h.None? || 0xD800 <= h.value < 0xE000 then Fail else Done(h.value as char, s[5..])
      case _ => Fail
  }

  /** The characters up to the closing quote. */
  function ReadChars(s: string): (r: Parsed<string>)
    ensures r.Done? ==> |r.rest| < |s|
    decreases |s|
  {
    if s == [] || (s[0] as int < 0x20) then Fail
    else if s[0] == '"' then Done([], s[1..])
    else if s[0] == '\\' then
      match ReadEscape(s[1..])
      case Fail => Fail
      case Done(c, s1) =>
        match ReadChars(s1)
        case Fail => Fail
        case Done(cs, s2) => Done([c] + cs, s2)
    else
      match ReadChars(s[1..])
      case Fail => Fail
      case Done(cs, s1) => Done([s[0]] + cs, s1)
  }

  function ReadString(s: string): (r: Parsed<string>)
    ensures r.Done? ==> |r.rest| < |s|
  {
    if s != [] && s[0] == '"' then ReadChars(s[1..]) else Fail
  }

  // ---------- reading the text back ----------

  lemma HexReads(d: int)
    requires 0 <= d < 16
    ensures HexValue(HexChar(d)) == Some(d)
  {
  }

  lemma EscapeReads(c: char, rest: string)
    requires EscapeChar(c) != [c]
    ensures EscapeChar(c)[0] == '\\' && ReadEscape(EscapeChar(c)[1..] + rest) == Done(c, rest)
  {
    var s := EscapeChar(c)[1..] + rest;
    if |EscapeChar(c)| == 2 {
      assert s[1..] == rest;
    } else {
      var n := c as int;
      HexReads(0);
      HexReads(n / 16);
      HexReads(n % 16);
      assert s == ['u', '0', '0', HexChar(n / 16), HexChar(n % 16)] + rest;
      assert s[1..][..4] == ['0', '0', HexChar(n / 16), HexChar(n % 16)];
      assert ReadHex4(s[1..]) == Some(n);
      assert s[5..] == rest;
    }
  }

  lemma ClosingQuoteReads(rest: string)
    ensures ReadChars("\"" + rest) == Done("", rest)
  {
    assert ("\"" + rest)[1..] == rest;
  }

  lemma PlainCharReads(c: char, tail: string, t: string, rest: string)
    requires EscapeChar(c) == [c]
    requires ReadChars(tail) == Done(t, rest)
    ensures ReadChars([c] + tail) == Done([c] + t, rest)
  {
    assert ([c] + tail)[1..] == tail;
  }

  lemma EscapedCharReads(c: char, tail: string, t: string, rest: string)
    requires EscapeChar(c) != [c]
    requires ReadChars(tail) == Done(t, rest)
    ensures ReadChars(EscapeChar(c) + tail) == Done([c] + t, rest)
  {
    hide ReadEscape;
    EscapeReads(c, tail);
    assert (EscapeChar(c) + tail)[1..] == EscapeChar(c)[1..] + tail;
  }

  lemma {:induction false} CharsRoundTrip(t: string, rest: string)
    ensures ReadChars(Escape(t) + ("\"" + rest)) == Done(t, rest)
    decreases |t|
  {
    hide EscapeChar, ReadChars;
    if t == [] {
      assert Escape(t) + ("\"" + rest) == "\"" + rest;
      ClosingQuoteReads(rest);
    } else {
      var tail := Escape(t[1..]) + ("\"" + rest);
      CharsRoundTrip(t[1..], rest);
      assert Escape(t) + ("\"" + rest) == EscapeChar(t[0]) + tail;
      assert t == [t[0]] + t[1..];
      if EscapeChar(t[0]) == [t[0]] {
        PlainCharReads(t[0], tail, t[1..], rest);
      } else {
        EscapedCharReads(t[0], tail, t[1..], rest);
      }
    }
  }

  /** A quoted string reads back as itself, whatever follows it. */
  lemma StringRoundTrip(t: string, rest: string)
    ensures ReadString(Quote(t) + rest) == Done(t, rest)
  {
    hide ReadChars, Escape;
    CharsRoundTrip(t, rest);
    assert (Quote(t) + rest)[1..] == Escape(t) + ("\"" + rest);
  }

  predicate NeedsEscape(c: char) {
    c as int < 0x20 || c == '"' || c == '\\'
  }

  /** Only control characters, quotes and backslashes are ever escaped: any other text is written as it is. */
  lemma {:induction false} WrittenRawExactly(t: string)
    ensures |Escape(t)| >= |t|
    ensures Quote(t) == "\"" + t + "\"" <==> forall i :: 0 <= i < |t| ==> !NeedsEscape(t[i])
    ensures forall c :: c in Quote(t) ==> c as int >= 0x20
  {
    hide EscapeChar;
    EscapeIsLonger(t);
    if Quote(t) == "\"" + t + "\"" {
      assert Escape(t) == Quote(t)[1..|Quote(t)| - 1] == t;
    }
  }

  lemma {:induction false} EscapeIsLonger(t: string)
    ensures |Escape(t)| >= |t|
    ensures |Escape(t)| == |t| <==> forall i :: 0 <= i < |t| ==> !NeedsEscape(t[i])
    ensures (forall i :: 0 <= i < |t| ==> !NeedsEscape(t[i])) ==> Escape(t) == t
    ensures forall c :: c in Escape(t) ==> c as int >= 0x20
  {
    hide EscapeChar, NeedsEscape;
    if t != [] {
      EscapedChar(t[0]);
      EscapeIsLonger(t[1..]);
      assert t == [t[0]] + t[1..];
    }
  }

  lemma EscapedChar(c: char)
    ensures if NeedsEscape(c) then |EscapeChar(c)| > 1 else EscapeChar(c) == [c]
    ensures forall x :: x in EscapeChar(c) ==> x as int >= 0x20
  {
  }

  // ---------- the exact text ----------

  /** RFC 8785 section 3.2.2.2: the characters with a two-character form, and its second character. */
  function ShortForms(): map<int, char> {
    map[8 := 'b', 9 := 't', 10 := 'n', 12 := 'f', 13 := 'r', 34 := '"', 92 := '\\']
  }

  /** The sixteen digits of a `\u` escape, in lower case. */
  function HexDigits(): (ds: string)
    ensures |ds| == 16
  {
    "0123456789abcdef"
  }

  /** The literal of every one-character string, by code point. */
  lemma LiteralExactly(c: char)
    ensures var n := c as int;
      Quote([c]) ==
        if n in ShortForms() then ['"', '\\', ShortForms()[n], '"']
        else if n < 0x20 then ['"', '\\', 'u', '0', '0', HexDigits()[n / 0x10], HexDigits()[n % 0x10], '"']
        else ['"', c, '"']
  {
    var n := c as int;
    assert Escape([c]) == EscapeChar(c) + [];
    if n < 0x20 {
      HexIsLowerCase(n / 0x10);
      HexIsLowerCase(n % 0x10);
    }
  }

  lemma HexIsLowerCase(d: int)
    requires 0 <= d < 16
    ensures HexChar(d) == HexDigits()[d]
  {
  }

  /** The literal of a concatenation: the characters of the one before those of the other. */
  lemma QuoteOfConcat(s: string, t: string)
    ensures Quote(s + t) == Quote(s)[..|Quote(s)| - 1] + Quote(t)[1..]
  {
    EscapeOfConcat(s, t);
    hide Escape;
    assert Quote(s)[..|Quote(s)| - 1] == "\"" + Escape(s);
    assert Quote(t)[1..] == Escape(t) + "\"";
  }

  lemma {:induction false} EscapeOfConcat(s: string, t: string)
    ensures Escape(s + t) == Escape(s) + Escape(t)
  {
    hide EscapeChar;
    if s == [] {
      assert s + t == t;
    } else {
      assert (s + t)[1..] == s[1..] + t;
      EscapeOfConcat(s[1..], t);
    }
  }

  // ---------- no shorter spelling ----------

  /** Every spelling of a character a reader takes is at least as long as the one written. */
  lemma EscapeIsShortest(s: string)
    requires ReadEscape(s).Done?
    ensures |EscapeChar(ReadEscape(s).value)| + |ReadEscape(s).rest| <= |s| + 1
  {
  }

  /** No literal that reads as the same string is shorter than the one written. */
  lemma {:induction false} QuoteIsShortest(s: string)
    requires ReadString(s).Done?
    ensures |Quote(ReadString(s).value)| + |ReadString(s).rest| <= |s|
  {
    CharsAreShortest(s[1..]);
  }

  lemma {:induction false} CharsAreShortest(s: string)
    requires ReadChars(s).Done?
    ensures |Escape(ReadChars(s).value)| + 1 + |ReadChars(s).rest| <= |s|
    decreases |s|
  {
    hide EscapeChar, ReadEscape;
    if s[0] == '"' {
    } else if s[0] == '\\' {
      EscapeIsShortest(s[1..]);
      CharsAreShortest(ReadEscape(s[1..]).rest);
      FirstChar(ReadEscape(s[1..]).value, ReadChars(ReadEscape(s[1..]).rest).value);
    } else {
      CharsAreShortest(s[1..]);
      FirstChar(s[0], ReadChars(s[1..]).value);
      EscapedChar(s[0]);
    }
  }

  lemma FirstChar(c: char, cs: string)
    ensures Escape([c] + cs) == EscapeChar(c) + Escape(cs)
  {
    assert ([c] + cs)[1..] == cs;
  }
}
