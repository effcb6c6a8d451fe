/** The executor's side: Passport verification and the check of an MCP tool call. */
module Sdk {
  import opened Results
  import opened JsonValues
  import opened Canonical
  import opened Doubles
  import opened IntegerPrecision
  import opened PyEquality
  import opened Rules
  import opened Tokens
  import opened Replay

  // ---------- verify_passport ----------

  datatype Failure =
    | MissingPassport | JwtError | DecisionNotAllowed | TenantMismatch | ActionMismatch | VerificationFailed
    | PayloadTampered | MissingJti | Replayed | ArgumentsMismatch

  /** An executor: its audience, its tenant ("" for any), the AXG key it trusts and the arguments it ignores. */
  datatype Executor = Executor(appId: string, tenantId: string, key: Key, ignored: seq<string>)

  /** The checks of `verify_passport` before replay protection. */
  function CheckPassport(h: Hash, x: Executor, token: Token, payload: seq<Member>, actionType: string, now: real)
    : Result<Claims, Failure>
  {
    var c := token.claims;
    if !Decodes(token, x.key, Some(x.appId), now) then Err(JwtError)
    else if c.decision != Allow then Err(DecisionNotAllowed)
    else if x.tenantId != "" && c.tenantId != x.tenantId then Err(TenantMismatch)
    else if c.actionType != actionType then Err(ActionMismatch)
    else if HashPayload(h, payload).None? then Err(VerificationFailed)
    else if HashPayload(h, payload) != Some(c.payloadHash) then Err(PayloadTampered)
    else if c.jti == "" then Err(MissingJti)
    else Ok(c)
  }

  datatype Verdict = Verdict(result: Result<Claims, Failure>, seen: Seen)

  function VerifyPassport(h: Hash, x: Executor, token: Token, payload: seq<Member>, actionType: string, now: real,
                          seen: Seen)
    : Verdict
  {
    match CheckPassport(h, x, token, payload, actionType, now)
    case Err(e) => Verdict(Err(e), seen)
    case Ok(c) =>
      Verdict(if IsFresh(seen, now, c.jti) then Ok(c) else Err(Replayed), Store(seen, now, c.jti, c.exp))
  }

  // ---------- verify_mcp_tool_call ----------

  /** A tool call with what its `_meta` carries: a Passport and the payload it authorizes. */
  datatype ToolCall = ToolCall(name: string, arguments: seq<Member>, passport: Option<Token>, authorized: Option<Json>)

  predicate ArgumentAuthorized(m: Member, authorized: seq<Member>) {
    var v := Get(authorized, m.key);
    v.Some? && PyEq(v.value, m.value)
  }

  /** Every argument not ignored is in the authorized payload, equal. */
  predicate ArgumentsAuthorized(arguments: seq<Member>, authorized: seq<Member>, ignored: seq<string>) {
    forall i :: 0 <= i < |arguments| ==> arguments[i].key in ignored || ArgumentAuthorized(arguments[i], authorized)
  }

  function VerifyCall(h: Hash, x: Executor, call: ToolCall, now: real, seen: Seen): Verdict {
    if call.passport.None? || call.authorized.None? || !call.authorized.value.Obj? then
      Verdict(Err(MissingPassport), seen)
    else
      var payload := call.authorized.value.members;
      var v := VerifyPassport(h, x, call.passport.value, payload, call.name, now, seen);
      if v.result.Ok? && !ArgumentsAuthorized(call.arguments, payload, x.ignored)
      then Verdict(Err(ArgumentsMismatch), v.seen)
      else v
  }

  /** `verify_mcp_tool_call`: a refusal for its arguments still uses the Passport up. */
  method VerifyMcpToolCall(h: Hash, x: Executor, call: ToolCall, now: real, cache: ReplayCache)
    returns (r: Result<Claims, Failure>)
    modifies cache
    ensures Verdict(r, cache.seen) == VerifyCall(h, x, call, now, old(cache.seen))
  {
    hide CheckPassport, IsFresh, Store, PyEq, Get;
    if call.passport.None? || call.authorized.None? || !call.authorized.value.Obj? {
      return Err(MissingPassport);
    }
    var authorized := call.authorized.value.members;
    r := CheckPassport(h, x, call.passport.value, authorized, call.name, now);
    if r.Err? {
      return;
    }
    var first := cache.CheckAndStore(now, r.value.jti, r.value.exp);
    if !first {
      return Err(Replayed);
    }
    for i := 0 to |call.arguments|
      invariant forall j :: 0 <= j < i ==>
        call.arguments[j].key in x.ignored || ArgumentAuthorized(call.arguments[j], authorized)
    {
      var m := call.arguments[i];
      if m.key in x.ignored {
        continue;
      }
      var v := Get(authorized, m.key);
      if v.None? || !PyEq(v.value, m.value) {
        return Err(ArgumentsMismatch);
      }
    }
  }

  /** Signature, window, audience, tenant, tool and payload: what `verify_passport` checks before single use. */
  predicate PassesPassport(h: Hash, x: Executor, call: ToolCall, now: real) {
    && call.passport.Some? && call.authorized.Some? && call.authorized.value.Obj?
    && (var c := call.passport.value.claims;
        && call.passport.value.signedWith == x.key && c.iss == "axg-engine" && c.aud == x.appId
        && c.nbf as real <= now && c.iat as real <= now < c.exp as real
        && c.decision == Allow && (x.tenantId == "" || c.tenantId == x.tenantId) && c.actionType == call.name
        && HashPayload(h, call.authorized.value.members) == Some(c.payloadHash)
        && c.jti != "")
  }

  /** All but single use. */
  predicate PassesChecks(h: Hash, x: Executor, call: ToolCall, now: real) {
    PassesPassport(h, x, call, now) && ArgumentsAuthorized(call.arguments, call.authorized.value.members, x.ignored)
  }

  /** The checks of a call in their order, with the error each gives. */
  function CallChecks(h: Hash, x: Executor, token: Token, call: ToolCall, payload: seq<Member>, now: real, seen: Seen)
    : seq<(bool, Failure)>
  {
    var c := token.claims;
    [ (token.signedWith == x.key && c.iss == "axg-engine" && c.aud == x.appId
       && c.nbf as real <= now && c.iat as real <= now < c.exp as real, JwtError),
      (c.decision == Allow, DecisionNotAllowed),
      (x.tenantId != "" ==> c.tenantId == x.tenantId, TenantMismatch),
      (c.actionType == call.name, ActionMismatch),
      (HashPayload(h, payload).Some?, VerificationFailed),
      (HashPayload(h, payload) == Some(c.payloadHash), PayloadTampered),
      (c.jti != "", MissingJti),
      (!(c.jti in seen && seen[c.jti] > now.Floor), Replayed),
      (ArgumentsAuthorized(call.arguments, payload, x.ignored), ArgumentsMismatch) ]
  }

  /** A call without a Passport and its payload says so; of any other the first check that fails decides. */
  lemma VerdictExactly(h: Hash, x: Executor, call: ToolCall, now: real, seen: Seen)
    ensures var r := VerifyCall(h, x, call, now, seen).result;
      if call.passport.None? || call.authorized.None? || !call.authorized.value.Obj? then r == Err(MissingPassport)
      else
        var failed := FirstFailure(CallChecks(h, x, call.passport.value, call, call.authorized.value.members, now,
                                              seen));
        r == if failed.Some? then Err(failed.value) else Ok(call.passport.value.claims)
  {
    hide FirstFailure, HashPayload, ArgumentsAuthorized;
    if call.passport.Some? && call.authorized.Some? && call.authorized.value.Obj? {
      var checks := CallChecks(h, x, call.passport.value, call, call.authorized.value.members, now, seen);
      if !checks[0].0 {
        FirstFailureExactly(checks, 0);
      } else if !checks[1].0 {
        FirstFailureExactly(checks, 1);
      } else if !checks[2].0 {
        FirstFailureExactly(checks, 2);
      } else if !checks[3].0 {
        FirstFailureExactly(checks, 3);
      } else if !checks[4].0 {
        FirstFailureExactly(checks, 4);
      } else if !checks[5].0 {
        FirstFailureExactly(checks, 5);
      } else if !checks[6].0 {
        FirstFailureExactly(checks, 6);
      } else if !checks[7].0 {
        FirstFailureExactly(checks, 7);
      } else if !checks[8].0 {
        FirstFailureExactly(checks, 8);
      }
    }
  }

  /** The verdicts that come after the Passport was stored: accepted, or refused for the arguments. */
  predicate Spends(result: Result<Claims, Failure>) {
    result.Ok? || result == Err(ArgumentsMismatch)
  }

  /** A call is accepted exactly when it passes every check and the cache does not hold its Passport. */
  lemma AcceptedExactly(h: Hash, x: Executor, call: ToolCall, now: real, seen: Seen)
    ensures var v := VerifyCall(h, x, call, now, seen);
      && (v.result.Ok? <==> PassesChecks(h, x, call, now) && IsFresh(seen, now, call.passport.value.claims.jti))
      && (v.result.Ok? ==>
            && v.result.value == call.passport.value.claims
            && v.seen == Store(seen, now, v.result.value.jti, v.result.value.exp))
  {
    hide HashPayload, IsFresh, Store, ArgumentsAuthorized;
  }

  /**
   A Passport that passes is spent when the cache does not hold it and a replay when it does; either way it
   is stored.
   */
  lemma SpentExactly(h: Hash, x: Executor, call: ToolCall, now: real, seen: Seen)
    ensures var v := VerifyCall(h, x, call, now, seen);
      if PassesPassport(h, x, call, now) then
        var c := call.passport.value.claims;
        && (Spends(v.result) <==> IsFresh(seen, now, c.jti))
           && (v.result == Err(Replayed) <==> !IsFresh(seen, now, c.jti))
        && v.seen == Store(seen, now, c.jti, c.exp)
      else !Spends(v.result) && v.result != Err(Replayed) && v.seen == seen
  {
    hide HashPayload, IsFresh, Store, ArgumentsAuthorized;
  }

  /**
   An authorized argument is the same JSON as the authorized value exactly when booleans meet only
   booleans.
   */
  lemma AuthorizedArgumentExactly(m: Member, authorized: seq<Member>)
    requires WellFormed(Obj(authorized)) && PrintableMembers(authorized) && WellFormed(m.value)
    requires ArgumentAuthorized(m, authorized)
    ensures Equiv(Get(authorized, m.key).value, m.value) <==> BooleansAlign(Get(authorized, m.key).value, m.value)
  {
    var v := Get(authorized, m.key).value;
    var i :| 0 <= i < |authorized| && authorized[i] == Member(m.key, v);
    PyEqPrintable(v, m.value);
    PyEqIsEquivOffBooleans(v, m.value);
  }

  /** Python's `1 == True` lets `true` through where AXG authorized `1`. */
  lemma BooleanPassesAsNumber()
    ensures ArgumentAuthorized(Member("n", Bool(true)), [Member("n", Int(1))]) && !Equiv(Int(1), Bool(true))
  {
    assert Get([Member("n", Int(1))], "n") == Some(Int(1));
    assert IntegerOf(Int(1)) == IntegerOf(Bool(true));
  }

  /** Every argument not ignored is in the payload, equal once integers are read as the doubles they are hashed as. */
  predicate ArgumentsBound(arguments: seq<Member>, payload: seq<Member>, ignored: seq<string>) {
    ArgumentsAuthorized(MembersAsDoubles(arguments), MembersAsDoubles(payload), ignored)
  }

  /** Arguments authorized by a payload are bound by every payload that is the same JSON. */
  lemma AuthorizedIsBound(arguments: seq<Member>, p: seq<Member>, q: seq<Member>, ignored: seq<string>)
    requires DistinctKeys(p) && DistinctKeys(q) && Equiv(Obj(p), Obj(q))
    requires ArgumentsAuthorized(arguments, q, ignored)
    ensures ArgumentsBound(arguments, p, ignored)
  {
    hide Equiv, PyEq, AsDoubles, Get;
    var ds := MembersAsDoubles(arguments);
    forall i | 0 <= i < |ds| && ds[i].key !in ignored ensures ArgumentAuthorized(ds[i], MembersAsDoubles(p)) {
      var m := arguments[i];
      assert ArgumentAuthorized(m, q);
      EquivGetBack(p, q, m.key);
      EquivThenPyEq(Get(p, m.key).value, Get(q, m.key).value, m.value);
      GetAsDoubles(p, m.key);
    }
  }

  /** The argument and the payload's value of its key hold integers that are no doubles only against themselves. */
  ghost predicate AlignsWith(m: Member, payload: seq<Member>) {
    Get(payload, m.key).Some? ==> InexactAlign(Get(payload, m.key).value, m.value)
  }

  /**
   The payload authorizes the arguments exactly when it binds them and no argument differs from it in an
   integer that is no double.
   */
  lemma BoundExactly(arguments: seq<Member>, payload: seq<Member>, ignored: seq<string>)
    requires WellFormed(Obj(arguments)) && WellFormed(Obj(payload))
    ensures ArgumentsAuthorized(arguments, payload, ignored) <==>
      && ArgumentsBound(arguments, payload, ignored)
      && forall i :: 0 <= i < |arguments| && arguments[i].key !in ignored ==> AlignsWith(arguments[i], payload)
  {
    hide PyEq, AsDoubles, Get, InexactAlign;
    var ds, es := MembersAsDoubles(arguments), MembersAsDoubles(payload);
    forall i | 0 <= i < |arguments|
      ensures ds[i].key == arguments[i].key
      ensures ArgumentAuthorized(arguments[i], payload)
         <==> ArgumentAuthorized(ds[i], es) && AlignsWith(arguments[i], payload)
    {
      var m := arguments[i];
      GetAsDoubles(payload, m.key);
      var v := Get(payload, m.key);
      if v.Some? {
        var j :| 0 <= j < |payload| && payload[j] == Member(m.key, v.value);
        PyEqExactly(v.value, m.value);
      }
    }
  }

  /**
   The payload that was decided holds 2^53 + 1, the one presented 2^53, and so does the argument: one hash,
   all checks pass.
   */
  lemma LargeArgumentChanges(h: Hash)
    ensures var p, q := [Member("n", Int(PRECISION + 1))], [Member("n", Int(PRECISION))];
      && HashPayload(h, p).Some? && HashPayload(h, p) == HashPayload(h, q)
      && ArgumentsAuthorized(q, q, []) && !ArgumentsAuthorized(q, p, [])
  {
    var p, q := [Member("n", Int(PRECISION + 1))], [Member("n", Int(PRECISION))];
    LargeIntegersShareText();
    hide Converted, Printable, Print, IsExact;
    OneMember(q[0]);
    OneMember(p[0]);
    OneText(h, p, q);
  }

  lemma OneMember(m: Member)
    ensures Get([m], m.key) == Some(m.value)
  {
  }

  /** Payloads of one member with one text have one hash. */
  lemma OneText(h: Hash, p: seq<Member>, q: seq<Member>)
    requires |p| == 1 && |q| == 1 && p[0].key == q[0].key
    requires Printable(p[0].value) && Printable(q[0].value) && Print(p[0].value) == Print(q[0].value)
    ensures HashPayload(h, p).Some? && HashPayload(h, p) == HashPayload(h, q)
  {
    hide Print, Converted;
    SameTextOfMember(p, q);
  }
}
