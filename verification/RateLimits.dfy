/** The fixed-window rate limiter, and what it admits over every history. */
module RateLimits {
  import opened Results

  /** Per caller: the current window and how many calls it admitted. */
  type Windows = map<string, (int, nat)>

  /** `int(now // 60)`. */
  function Window(now: real): int {
    (now / 60.0).Floor
  }

  /** The calls already admitted for the caller in this window, as the limiter knows them. */
  function Used(windows: Windows, caller: string, window: int): nat {
    if caller in windows && windows[caller].0 == window then windows[caller].1 else 0
  }

  /** `max(1, int((window + 1) * 60 - now))`. */
  function RetryAfter(now: real): int {
    var left := ((Window(now) + 1) * 60) as real - now;
    if left.Floor < 1 then 1 else left.Floor
  }

  predicate Admits(windows: Windows, caller: string, now: real, limit: int) {
    limit <= 0 || Used(windows, caller, Window(now)) < limit
  }

  function Checked(windows: Windows, caller: string, now: real, limit: int): Windows {
    if limit <= 0 || !Admits(windows, caller, now, limit) then windows
    else windows[caller := (Window(now), Used(windows, caller, Window(now)) + 1)]
  }

  class RateLimiter {
    var windows: Windows

    constructor ()
      ensures windows == map[]
    {
      windows := map[];
    }

    /** `check`: counts an admitted call; a refused one leaves the windows alone and gets a time to wait. */
    method Check(caller: string, now: real, limit: int) returns (retry: Option<int>)
      modifies this
      ensures windows == Checked(old(windows), caller, now, limit)
      ensures retry == if Admits(old(windows), caller, now, limit) then None else Some(RetryAfter(now))
    {
      if limit <= 0 {
        return None;
      }
      var window := Window(now);
      var start, count := window, 0;
      if caller in windows {
        start, count := windows[caller].0, windows[caller].1;
      }
      if start != window {
        start, count := window, 0;
      }
      if count >= limit {
        return Some(RetryAfter(now));
      }
      windows := windows[caller := (start, count + 1)];
      return None;
    }
  }

  // ---------- histories ----------

  datatype Call = Call(caller: string, at: real)

  ghost predicate InOrder(history: seq<Call>) {
    forall i, j :: 0 <= i < j < |history| ==> history[i].at <= history[j].at
  }

  function After(history: seq<Call>, limit: int): Windows {
    if history == [] then map[]
    else
      var last := history[|history| - 1];
      Checked(After(history[..|history| - 1], limit), last.caller, last.at, limit)
  }

  predicate Admitted(history: seq<Call>, limit: int, i: nat)
    requires i < |history|
  {
    Admits(After(history[..i], limit), history[i].caller, history[i].at, limit)
  }

  /** How many calls of the caller were admitted within [from, to). */
  function AdmittedWithin(history: seq<Call>, limit: int, caller: string, from: real, to: real): nat {
    if history == [] then 0
    else
      var n := |history| - 1;
      AdmittedWithin(history[..n], limit, caller, from, to)
      + (if Admitted(history, limit, n) && history[n].caller == caller && from <= history[n].at < to then 1 else 0)
  }

  function WindowStart(w: int): real {
    (60 * w) as real
  }

  function AdmittedInWindow(history: seq<Call>, limit: int, caller: string, w: int): nat {
    AdmittedWithin(history, limit, caller, WindowStart(w), WindowStart(w + 1))
  }

  lemma WindowExactly(now: real, w: int)
    ensures Window(now) == w <==> WindowStart(w) <= now < WindowStart(w + 1)
  {
    assert now == 60.0 * (now / 60.0);
  }

  lemma WindowMonotone(a: real, b: real)
    requires a <= b
    ensures Window(a) <= Window(b)
  {
    assert a / 60.0 <= b / 60.0;
  }

  lemma {:induction false} UsedIsAdmitted(history: seq<Call>, limit: int, caller: string, w: int)
    requires limit > 0 && InOrder(history) && forall i :: 0 <= i < |history| ==> Window(history[i].at) <= w
    ensures Used(After(history, limit), caller, w) == AdmittedInWindow(history, limit, caller, w)
    ensures caller in After(history, limit) ==> After(history, limit)[caller].0 <= w
  {
    hide Window, WindowStart;
    if history != [] {
      var n := |history| - 1;
      var init, last := history[..n], history[n];
      UsedIsAdmitted(init, limit, caller, w);
      forall i | 0 <= i < n ensures Window(init[i].at) <= Window(last.at) {
        WindowMonotone(history[i].at, last.at);
      }
      UsedIsAdmitted(init, limit, caller, Window(last.at));
      WindowExactly(last.at, w);
    }
  }

  /**
   Exact admission: a call is admitted exactly when there is no limit, or fewer than `limit` of its caller
   were admitted in its minute.
   */
  lemma AdmittedExactly(history: seq<Call>, limit: int, k: nat)
    requires InOrder(history) && k < |history|
    ensures Admitted(history, limit, k) <==>
      limit <= 0 || AdmittedInWindow(history[..k], limit, history[k].caller, Window(history[k].at)) < limit
  {
    hide Window, AdmittedWithin;
    if limit <= 0 {
      return;
    }
    forall i | 0 <= i < k ensures Window(history[..k][i].at) <= Window(history[k].at) {
      WindowMonotone(history[i].at, history[k].at);
    }
    UsedIsAdmitted(history[..k], limit, history[k].caller, Window(history[k].at));
  }

  lemma {:induction false} WindowBound(history: seq<Call>, limit: int, caller: string, w: int)
    requires limit > 0 && InOrder(history)
    ensures AdmittedInWindow(history, limit, caller, w) <= limit
  {
    if history != [] {
      var n := |history| - 1;
      WindowBound(history[..n], limit, caller, w);
      AdmittedExactly(history, limit, n);
      WindowExactly(history[n].at, w);
    }
  }

  lemma {:induction false} SpanIsTwoWindows(history: seq<Call>, limit: int, caller: string, from: real)
    ensures var w := Window(from);
      AdmittedWithin(history, limit, caller, from, from + 60.0)
      <= AdmittedInWindow(history, limit, caller, w) + AdmittedInWindow(history, limit, caller, w + 1)
  {
    hide Admitted;
    if history != [] {
      SpanIsTwoWindows(history[..|history| - 1], limit, caller, from);
      WindowExactly(from, Window(from));
    }
  }

  /** Any span of 60 seconds admits at most twice the limit of one caller. */
  lemma SpanBound(history: seq<Call>, limit: int, caller: string, from: real)
    requires limit > 0 && InOrder(history)
    ensures AdmittedWithin(history, limit, caller, from, from + 60.0) <= 2 * limit
  {
    SpanIsTwoWindows(history, limit, caller, from);
    WindowBound(history, limit, caller, Window(from));
    WindowBound(history, limit, caller, Window(from) + 1);
  }

  /** The calls of one caller. */
  function Only(history: seq<Call>, caller: string): seq<Call> {
    if history == [] then []
    else
      Only(history[..|history| - 1], caller)
      + (if history[|history| - 1].caller == caller then [history[|history| - 1]] else [])
  }

  /** What the limiter holds for one caller. */
  ghost predicate SameWindow(a: Windows, b: Windows, caller: string) {
    (caller in a <==> caller in b) && (caller in a ==> a[caller] == b[caller])
  }

  lemma SameVerdict(a: Windows, b: Windows, caller: string, now: real, limit: int)
    requires SameWindow(a, b, caller)
    ensures Admits(a, caller, now, limit) <==> Admits(b, caller, now, limit)
    ensures SameWindow(Checked(a, caller, now, limit), Checked(b, caller, now, limit), caller)
  {
    hide Window;
  }

  lemma OthersUntouched(a: Windows, b: Windows, caller: string, other: string, now: real, limit: int)
    requires SameWindow(a, b, caller) && other != caller
    ensures SameWindow(Checked(a, other, now, limit), b, caller)
  {
    hide Window, Used;
  }

  /** Callers never affect each other: a verdict depends only on the caller's own calls. */
  lemma {:induction false} CallersIndependent(history: seq<Call>, limit: int, caller: string, now: real)
    ensures SameWindow(After(history, limit), After(Only(history, caller), limit), caller)
    ensures Admits(After(history, limit), caller, now, limit)
      <==> Admits(After(Only(history, caller), limit), caller, now, limit)
  {
    hide SameWindow, Admits, Checked;
    if history == [] {
      NothingYet(caller);
    } else {
      var n := |history| - 1;
      var init, last := history[..n], history[n];
      CallersIndependent(init, limit, caller, now);
      var only := Only(history, caller);
      if last.caller == caller {
        assert only[..|only| - 1] == Only(init, caller);
        SameVerdict(After(init, limit), After(Only(init, caller), limit), caller, last.at, limit);
      } else {
        assert only == Only(init, caller);
        OthersUntouched(After(init, limit), After(only, limit), caller, last.caller, last.at, limit);
      }
    }
    SameVerdict(After(history, limit), After(Only(history, caller), limit), caller, now, limit);
  }

  lemma NothingYet(caller: string)
    ensures SameWindow(map[], map[], caller)
  {
  }

  /**
   A refusal names 1 to 60 seconds. Waiting that long reaches the next window exactly when the time
   left is a whole number of seconds or less than one: the header rounds down.
   */
  lemma RetryAfterExactly(now: real)
    ensures 1 <= RetryAfter(now) <= 60
    ensures var left := WindowStart(Window(now) + 1) - now;
      Window(now + RetryAfter(now) as real) > Window(now) <==> left <= 1.0 || left.Floor as real == left
  {
    var w := Window(now);
    WindowExactly(now, w);
    var later := now + RetryAfter(now) as real;
    WindowExactly(later, w);
    WindowMonotone(now, later);
  }

  /** 58.5 seconds into a minute a refusal names one second, after which the minute is not over. */
  lemma RetryFallsShort()
    ensures RetryAfter(58.5) == 1 && Window(58.5 + 1.0) == Window(58.5)
  {
    WindowExactly(58.5, 0);
    WindowExactly(59.5, 0);
  }
}
