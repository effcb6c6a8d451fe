/** The remote-policy allowlist: a string test that stands for a test on path segments. */
module Allowlist {
  import opened Results
  import opened Strings
  import opened CanonicalString

  /** What `_url_parts` returns: scheme, host and port to compare, and the path. */
  datatype Url = Url(scheme: string, host: string, port: Option<int>, path: string)

  function Segments(path: string): seq<string> {
    SplitOn(path, '/')
  }

  predicate IsDotSegment(s: string) {
    s == "." || s == ".."
  }

  predicate HasDotSegment(path: string) {
    exists i :: 0 <= i < |Segments(path)| && IsDotSegment(Segments(path)[i])
  }

  /** The character of one percent-escaped byte; bytes from 0x80 on decode to something outside ASCII. */
  function DecodedByte(n: int): char
    requires 0 <= n < 0x100
  {
    if n < 0x80 then n as char else '\U{FFFD}'
  }

  /** `unquote`: one pass of percent-decoding; a malformed escape stays as it is. */
  function Unquote(s: string): string {
    if s == "" then ""
    else if s[0] == '%' && |s| >= 3 && HexValue(s[1]).Some? && HexValue(s[2]).Some? then
      [DecodedByte(16 * HexValue(s[1]).value + HexValue(s[2]).value)] + Unquote(s[3..])
    else [s[0]] + Unquote(s[1..])
  }

  /** `path.rstrip("/")`. */
  function StripSlashes(path: string): string {
    if path != "" && path[|path| - 1] == '/' then StripSlashes(path[..|path| - 1]) else path
  }

  predicate Admits(entry: Url, target: Url) {
    var base := StripSlashes(entry.path);
    && entry.scheme == target.scheme && entry.host == target.host && entry.port == target.port
    && (base == "" || target.path == base || base + "/" <= target.path)
  }

  /** `_is_allowlisted`, from parsed URLs; None stands for one that does not parse. */
  predicate IsAllowlisted(target: Option<Url>, entries: seq<Option<Url>>) {
    && target.Some?
    && !HasDotSegment(Unquote(target.value.path))
    && exists i :: 0 <= i < |entries| && entries[i].Some? && Admits(entries[i].value, target.value)
  }

  /** An entry admits a target of its origin exactly when its path segments are the target's first ones. */
  lemma AdmitsExactly(entry: Url, target: Url)
    requires target.path != "" && target.path[0] == '/'
    ensures Admits(entry, target) <==>
      && entry.scheme == target.scheme && entry.host == target.host && entry.port == target.port
      && Segments(StripSlashes(entry.path)) <= Segments(target.path)
  {
    PartsPrefix(StripSlashes(entry.path), target.path, '/');
    if StripSlashes(entry.path) == "" {
      assert "" + "/" <= target.path;
    }
  }

  /** The parts without the empty ones at the end. */
  function Trimmed(parts: seq<string>): seq<string> {
    if parts != [] && parts[|parts| - 1] == "" then Trimmed(parts[..|parts| - 1]) else parts
  }

  /** Taking slashes off the end of a path takes empty segments off the end of its segments. */
  lemma {:induction false} StrippedSegments(path: string)
    ensures Segments(StripSlashes(path)) == if Trimmed(Segments(path)) == [] then [""] else Trimmed(Segments(path))
    decreases |path|
  {
    var n := |path| - 1;
    if path != "" && path[n] == '/' {
      StrippedSegments(path[..n]);
      LastSlash(path[..n]);
      assert path == path[..n] + "/";
      var parts := Segments(path);
      assert parts[..|parts| - 1] == Segments(path[..n]);
    } else {
      LastSegment(path);
    }
  }

  lemma {:induction false} LastSlash(s: string)
    ensures Segments(s + "/") == Segments(s) + [""]
    decreases |s|
  {
    if s == "" {
      assert "/"[1..] == "" && s + "/" == "/";
      assert Segments("/") == [""] + Segments("");
    } else {
      LastSlash(s[1..]);
      assert (s + "/")[1..] == s[1..] + "/";
      assert (Segments(s[1..]) + [""])[1..] == Segments(s[1..])[1..] + [""];
    }
  }

  /** A path that does not end in a slash ends in a segment that is not empty. */
  lemma {:induction false} LastSegment(s: string)
    requires s == "" || s[|s| - 1] != '/'
    ensures Segments(s)[|Segments(s)| - 1] == "" <==> s == ""
    decreases |s|
  {
    if s != "" {
      LastSegment(s[1..]);
    }
  }

  /** The target has the entry's origin, and the entry's segments, but for empty ones at the end, are its first. */
  predicate Covers(entry: Url, target: Url) {
    && entry.scheme == target.scheme && entry.host == target.host && entry.port == target.port
    && Trimmed(Segments(entry.path)) <= Segments(target.path)
  }

  lemma DotSegmentExactly(path: string)
    ensures HasDotSegment(path) <==> "." in Segments(path) || ".." in Segments(path)
  {
    var segments := Segments(path);
    if "." in segments || ".." in segments {
      var i :| 0 <= i < |segments| && (segments[i] == "." || segments[i] == "..");
      assert IsDotSegment(segments[i]);
    }
  }

  lemma AdmitsCovered(entry: Url, target: Url)
    requires target.path != "" && target.path[0] == '/'
    ensures Admits(entry, target) <==> Covers(entry, target)
  {
    hide StripSlashes, Admits;
    AdmitsExactly(entry, target);
    StrippedSegments(entry.path);
    assert Segments(target.path)[0] == "";
  }

  /**
   A rooted target is allowed exactly when no segment of its decoded path is "." or ".." and an entry that
   parses covers it.
   */
  lemma AllowlistedExactly(target: Option<Url>, entries: seq<Option<Url>>)
    requires target.Some? ==> target.value.path != "" && target.value.path[0] == '/'
    ensures IsAllowlisted(target, entries) <==>
      && target.Some?
      && "." !in Segments(Unquote(target.value.path)) && ".." !in Segments(Unquote(target.value.path))
      && exists entry :: Some(entry) in entries && Covers(entry, target.value)
  {
    hide Unquote, Admits, Covers, HasDotSegment, Segments;
    if target.Some? {
      DotSegmentExactly(Unquote(target.value.path));
      forall entry ensures Admits(entry, target.value) <==> Covers(entry, target.value) {
        AdmitsCovered(entry, target.value);
      }
      if i :| 0 <= i < |entries| && entries[i].Some? && Admits(entries[i].value, target.value) {
        assert Some(entries[i].value) in entries && Covers(entries[i].value, target.value);
      }
      if entry :| Some(entry) in entries && Covers(entry, target.value) {
        var i :| 0 <= i < |entries| && entries[i] == Some(entry);
        assert entries[i].Some? && Admits(entries[i].value, target.value);
      }
    }
  }

  // ---------- percent-decoding ----------

  /** An escape starts at this position. */
  predicate EscapeAt(s: string, i: nat) {
    i + 2 < |s| && s[i] == '%' && HexValue(s[i + 1]).Some? && HexValue(s[i + 2]).Some?
  }

  /** A text without an escape decodes to itself. */
  lemma {:induction false} UnquoteKeepsPlain(s: string)
    requires forall i: nat :: !EscapeAt(s, i)
    ensures Unquote(s) == s
    decreases |s|
  {
    if s != "" {
      assert !EscapeAt(s, 0);
      forall i: nat ensures !EscapeAt(s[1..], i) {
        assert !EscapeAt(s, i + 1);
      }
      UnquoteKeepsPlain(s[1..]);
      assert s == [s[0]] + s[1..];
    }
  }

  /** A digit of an escape, in upper or lower case. */
  function HexDigit(d: int, upper: bool): char
    requires 0 <= d < 16
  {
    (if upper then "0123456789ABCDEF" else "0123456789abcdef")[d]
  }

  lemma HexDigitReads(d: int, upper: bool)
    requires 0 <= d < 16
    ensures HexValue(HexDigit(d, upper)) == Some(d)
  {
  }

  /** The first escape of a text decodes to one character, and what follows it decodes as it would alone. */
  lemma {:induction false} UnquoteEscape(a: string, n: nat, upper: bool, b: string)
    requires n < 0x100 && forall i: nat :: !EscapeAt(a + "%", i)
    ensures Unquote(a + ['%', HexDigit(n / 16, upper), HexDigit(n % 16, upper)] + b) ==
      a + [if n <= 0x7F then n as char else '\U{FFFD}'] + Unquote(b)
    decreases |a|
  {
    hide HexValue, HexDigit;
    var e := ['%', HexDigit(n / 16, upper), HexDigit(n % 16, upper)];
    var s := a + e + b;
    if a == "" {
      HexDigitReads(n / 16, upper);
      HexDigitReads(n % 16, upper);
      assert s[3..] == b;
    } else {
      assert s[1..] == a[1..] + e + b;
      forall i: nat ensures !EscapeAt(a[1..] + "%", i) {
        assert !EscapeAt(a + "%", i + 1);
      }
      UnquoteEscape(a[1..], n, upper, b);
      assert a == [a[0]] + a[1..];
      assert !EscapeAt(s, 0) by { NoEscapeYet(a, s); }
    }
  }

  /** No escape starts before the "%" that follows a. */
  lemma NoEscapeYet(a: string, s: string)
    requires a != "" && a + "%" <= s && !EscapeAt(a + "%", 0)
    ensures !EscapeAt(s, 0)
  {
    if |a| == 1 {
      assert s[1] == '%';
    } else {
      assert s[1] == (a + "%")[1] && s[2] == (a + "%")[2];
    }
  }

  // ---------- dot segments ----------

  /**
   One pass of decoding leaves "/" and "." as they are, so a dot segment of the raw path is one of
   the decoded path too. `atStart` says that the text before `s` ended a segment.
   */
  predicate DotAhead(s: string, atStart: bool)
    decreases |s|
  {
    (atStart && IsDotSegment(Segments(s)[0])) || (s != "" && DotAhead(s[1..], s[0] == '/'))
  }

  lemma {:induction false} DotAheadExactly(s: string, atStart: bool)
    ensures DotAhead(s, atStart) <==>
      exists i :: (if atStart then 0 else 1) <= i < |Segments(s)| && IsDotSegment(Segments(s)[i])
    decreases |s|
  {
    var all := Segments(s);
    if s == "" {
      assert all == [""];
    } else {
      var rest := Segments(s[1..]);
      DotAheadExactly(s[1..], s[0] == '/');
      if s[0] == '/' {
        assert all == [""] + rest;
        assert forall i :: 1 <= i < |all| ==> all[i] == rest[i - 1];
        assert forall i :: 0 <= i < |rest| ==> all[i + 1] == rest[i];
      } else {
        assert all[1..] == rest[1..];
        assert forall i :: 1 <= i < |all| ==> all[i] == rest[i];
      }
    }
  }

  lemma {:induction false} UnquoteKeepsDots(s: string, atStart: bool)
    requires DotAhead(s, atStart)
    ensures DotAhead(Unquote(s), atStart)
    decreases |s|
  {
    var u := Unquote(s);
    if atStart && IsDotSegment(Segments(s)[0]) {
      FirstDotSegment(s);
    } else if s[0] == '%' && |s| >= 3 && HexValue(s[1]).Some? && HexValue(s[2]).Some? {
      assert !DotAhead(s[1..], s[0] == '/') || DotAhead(s[1..], false);
      SkipPlain(s[1..]);
      assert s[1..][1..] == s[2..];
      SkipPlain(s[2..]);
      assert s[2..][1..] == s[3..];
      UnquoteKeepsDots(s[3..], false);
      assert u[1..] == Unquote(s[3..]);
      Weaken(u[1..], u[0] == '/');
    } else {
      UnquoteKeepsDots(s[1..], s[0] == '/');
      assert u[1..] == Unquote(s[1..]);
    }
  }

  /** A character other than "/" neither is nor opens a segment inside one. */
  lemma SkipPlain(s: string)
    requires s != "" && s[0] != '/' && DotAhead(s, false)
    ensures DotAhead(s[1..], false)
  {
  }

  lemma Weaken(s: string, atStart: bool)
    requires DotAhead(s, false)
    ensures DotAhead(s, atStart)
  {
  }

  /** A leading "." or ".." segment survives decoding. */
  lemma FirstDotSegment(s: string)
    requires IsDotSegment(Segments(s)[0])
    ensures IsDotSegment(Segments(Unquote(s))[0])
  {
    FirstSegment(s);
    var k := |Segments(s)[0]|;
    var u := Unquote(s);
    if k == 1 {
      assert u == "." + Unquote(s[1..]);
      DecodesToBoundary(s[1..]);
    } else {
      assert s[1..][0] == '.' && s[1..][1..] == s[2..];
      assert Unquote(s[1..]) == "." + Unquote(s[2..]);
      assert u == "." + ("." + Unquote(s[2..]));
      assert u[1..] == "." + Unquote(s[2..]);
      DecodesToBoundary(s[2..]);
    }
  }

  lemma {:induction false} FirstSegment(s: string)
    ensures var f := Segments(s)[0]; f <= s && (|f| == |s| || s[|f|] == '/')
    decreases |s|
  {
    if s != "" && s[0] != '/' {
      FirstSegment(s[1..]);
    }
  }

  lemma DecodesToBoundary(s: string)
    requires s == "" || s[0] == '/'
    ensures Segments(Unquote(s))[0] == ""
  {
  }

  // ---------- remove_dot_segments, RFC 3986 section 5.2.4 ----------

  /** The output without its last segment and the "/" before it. */
  function DropLast(output: string): string {
    if output == "" then ""
    else if output[|output| - 1] == '/' then output[..|output| - 1]
    else DropLast(output[..|output| - 1])
  }

  function SegmentLength(s: string): (n: nat)
    ensures n <= |s| && (n < |s| ==> s[n] == '/')
  {
    if s == "" || s[0] == '/' then 0 else 1 + SegmentLength(s[1..])
  }

  /** The length of the first path segment of the input, with its leading "/" if any. */
  function FirstOf(input: string): (n: nat)
    requires input != ""
    ensures 1 <= n <= |input| && (n < |input| ==> input[n] == '/')
  {
    1 + SegmentLength(input[1..])
  }

  function RemoveDotSegments(input: string, output: string): string
    decreases |input|
  {
    if input == "" then output
    else if "../" <= input then RemoveDotSegments(input[3..], output)
    else if "./" <= input then RemoveDotSegments(input[2..], output)
    else if "/./" <= input then RemoveDotSegments(input[2..], output)
    else if input == "/." then output + "/"
    else if "/../" <= input then RemoveDotSegments(input[3..], DropLast(output))
    else if input == "/.." then DropLast(output) + "/"
    else if input == "." || input == ".." then output
    else
      var n := FirstOf(input);
      RemoveDotSegments(input[n..], output + input[..n])
  }

  /** What lies ahead of a later position lies ahead of the start. */
  lemma {:induction false} StillAhead(s: string, n: nat, atStart: bool)
    requires 1 <= n <= |s| && DotAhead(s[n..], false)
    ensures DotAhead(s, atStart)
    decreases n
  {
    if n == 1 {
      Weaken(s[1..], s[0] == '/');
    } else {
      assert s[1..][n - 1..] == s[n..];
      StillAhead(s[1..], n - 1, s[0] == '/');
    }
  }

  lemma NoDotPrefix(input: string)
    requires input != "" && !DotAhead(input, true)
    ensures !("../" <= input) && !("./" <= input) && !("/./" <= input) && !("/../" <= input)
    ensures input != "/." && input != "/.." && input != "." && input != ".."
  {
    FirstSegment(input);
    assert !IsDotSegment(Segments(input)[0]);
    StartOf(input);
    if input[0] == '/' {
      StartOf(input[1..]);
      assert !DotAhead(input[1..], true);
      assert !IsDotSegment(Segments(input[1..])[0]);
    }
  }

  /** A text that starts with a dot segment has one first. */
  lemma StartOf(s: string)
    ensures (s == "." || "./" <= s) ==> Segments(s)[0] == "."
    ensures (s == ".." || "../" <= s) ==> Segments(s)[0] == ".."
  {
    PartsPrefix(".", s, '/');
    PartsPrefix("..", s, '/');
    assert "."[1..] == "" && SplitOn("", '/') == [""];
    assert ['.'] + "" == ".";
    assert [""][1..] == [];
    assert SplitOn(".", '/') == ["."] + [];
    assert ".."[1..] == ".";
    assert ["."][1..] == [];
    assert SplitOn("..", '/') == [['.'] + "."] + [];
  }

  /** No dot segment comes after the first segment either. */
  lemma NoDotsAfter(input: string, n: nat)
    requires 1 <= n <= |input| && (n < |input| ==> input[n] == '/') && !DotAhead(input, true)
    ensures !DotAhead(input[n..], true)
  {
    if DotAhead(input[n..], true) {
      assert Segments(input[n..])[0] == "";
      StillAhead(input, n, true);
    }
  }

  /** An input that starts with no dot segment moves its first segment to the output. */
  lemma RemovesStep(input: string, output: string)
    requires input != "" && !("../" <= input) && !("./" <= input) && !("/./" <= input) && !("/../" <= input)
    requires input != "/." && input != "/.." && input != "." && input != ".."
    ensures var n := FirstOf(input);
      RemoveDotSegments(input, output) == RemoveDotSegments(input[n..], output + input[..n])
  {
    hide SegmentLength, DropLast;
  }

  lemma {:induction false} NothingToRemove(input: string, output: string)
    requires !DotAhead(input, true)
    ensures RemoveDotSegments(input, output) == output + input
    decreases |input|
  {
    if input == "" {
      assert output + input == output;
    } else {
      hide DotAhead, RemoveDotSegments, FirstOf;
      var n := FirstOf(input);
      NoDotPrefix(input);
      RemovesStep(input, output);
      NoDotsAfter(input, n);
      NothingToRemove(input[n..], output + input[..n]);
      Rejoined(output, input, n);
    }
  }

  lemma Rejoined(output: string, input: string, n: nat)
    requires n <= |input|
    ensures output + input[..n] + input[n..] == output + input
  {
  }

  /** The raw path of an accepted URL has no dot segments to remove: the server sees the path that was checked. */
  lemma AcceptedIsFixedPoint(target: Url, entries: seq<Option<Url>>)
    requires IsAllowlisted(Some(target), entries)
    ensures RemoveDotSegments(target.path, "") == target.path
  {
    DotAheadExactly(Unquote(target.path), true);
    if DotAhead(target.path, true) {
      UnquoteKeepsDots(target.path, true);
    }
    NothingToRemove(target.path, "");
    assert "" + target.path == target.path;
  }
}
