/** The gateway interceptor, and what its forwarded calls are worth to the executor behind it. */
module Gateway {
  import opened Results
  import opened JsonValues
  import opened PyEquality
  import opened Rules
  import opened Tokens
  import opened SignedContext
  import opened Engine
  import opened EngineProperties
  import opened Replay
  import opened Sdk
  import opened Protocol

  /** The `params` of an MCP tools/call; the rest of the body passes through untouched. */
  datatype Params = Params(name: string, arguments: seq<Member>, passport: Option<Token>, authorized: Option<Json>)

  datatype Output =
    | Forward(params: Params)
    | Unavailable
    | InvalidPassport
    | Refused(decision: Decision, offer: Option<Offer>)

  /** What a refusal's `_meta` hands the host application: the ticket and the payload to approve. */
  datatype Offer = Offer(ticket: Token, payload: seq<Member>)

  /** The caller's identity as the gateway's JWT claims give it. */
  datatype Identity = Identity(executionId: string, tenantId: string, userId: string, agent: Agent, dump: seq<Member>)

  /** Gateway configuration: `AXG_APP_ID`, `AXG_PLUGIN_ID` and `AXG_CEDAR_CONTEXT`. */
  datatype Config = Config(appId: string, pluginId: string, source: string, cedarContext: bool)

  /** `build_decision_request`: a tool call is no LLM guess, so its confidence is 1. */
  function BuildRequest(config: Config, params: Params, who: Identity): Request {
    Request(who.executionId, who.tenantId, config.appId, config.pluginId, who.userId, Some(who.agent), config.source,
            params.name, params.arguments, 1.0, [], false, who.dump)
  }

  const AXG_ARGUMENT := "axg"

  /** `params["arguments"]` with the decision injected for Cedar. */
  function InjectContext(arguments: seq<Member>, context: Json): seq<Member> {
    Put(arguments, AXG_ARGUMENT, context)
  }

  /** The decision path of `govern_tools_call`; no reply means AXG is unavailable. */
  function GovernDecision(config: Config, params: Params, reply: Option<Response>, context: Json): Output {
    match reply
    case None => Unavailable
    case Some(r) =>
      if r.decision != Allow || r.passport.None? then
        Refused(r.decision, if r.ticket.Some? then Some(Offer(r.ticket.value, r.payload)) else None)
      else
        Forward(Params(
          params.name,
          if config.cedarContext then InjectContext(params.arguments, context) else params.arguments,
          r.passport, Some(Obj(r.payload))))
  }

  /** `_approved_call`: the arguments first, then AXG's introspection; no reply means AXG is unavailable. */
  function ApprovedCallOutput(params: Params, reply: Option<Result<Claims, Inactive>>): Output {
    if params.authorized.None? || !params.authorized.value.Obj?
       || !ArgumentsAuthorized(params.arguments, params.authorized.value.members, [AXG_ARGUMENT])
    then InvalidPassport
    else
      match reply
      case None => Unavailable
      case Some(Err(_)) => InvalidPassport
      case Some(Ok(_)) => Forward(params)
  }

  /** A call that carries a Passport is checked, any other is decided. */
  function Govern(config: Config, params: Params, decided: Option<Response>, context: Json,
                  introspected: Option<Result<Claims, Inactive>>): Output
  {
    if params.passport.Some? then ApprovedCallOutput(params, introspected)
    else GovernDecision(config, params, decided, context)
  }

  /** `govern_tools_call`. */
  method GovernToolsCall(config: Config, params: Params, decided: Option<Response>, context: Json,
                         introspected: Option<Result<Claims, Inactive>>) returns (out: Output)
    ensures out == Govern(config, params, decided, context, introspected)
  {
    if params.passport.Some? {
      return ApprovedCallOutput(params, introspected);
    }
    if decided.None? {
      return Unavailable;
    }
    var decision := decided.value;
    if decision.decision != Allow || decision.passport.None? {
      var offer := None;
      if decision.ticket.Some? {
        offer := Some(Offer(decision.ticket.value, decision.payload));
      }
      return Refused(decision.decision, offer);
    }
    var forwarded := params;
    forwarded := forwarded.(passport := decision.passport, authorized := Some(Obj(decision.payload)));
    if config.cedarContext {
      forwarded := forwarded.(arguments := InjectContext(forwarded.arguments, context));
    }
    return Forward(forwarded);
  }

  /**
   The endpoint behind `_approved_call`: introspection for authenticated callers, limited to apps they
   may act for. None when it answers with an error status.
   */
  function IntrospectEndpoint(h: Hash, s: State, caller: Caller, params: Params): Option<Result<Claims, Inactive>> {
    if !caller.authenticated || params.passport.None? || params.authorized.None? || !params.authorized.value.Obj? then
      None
    else
      match Introspect(h, params.passport.value, s.current, s.retired, s.now, Some(params.name),
                       Some(params.authorized.value.members))
      case Ok(c) => Some(if caller.MayActFor(c.aud) then Ok(c) else Err(Invalid))
      case Err(UnhashablePayload) => None
      case Err(e) => Some(Err(e))
  }

  /** The MCP tool sees the forwarded call. */
  function AsToolCall(params: Params): ToolCall {
    ToolCall(params.name, params.arguments, params.passport, params.authorized)
  }

  // ---------- when the arguments survive ----------

  /** No rule and no category rewrite replaced an argument by a different value. */
  predicate ArgumentsSurvive(request: Request, triggered: seq<Rule>, arguments: seq<Member>) {
    forall i :: 0 <= i < |arguments| && arguments[i].key != AXG_ARGUMENT ==>
      var rewrite := Rewrite(request, triggered, arguments[i].key);
      rewrite.None? || PyEq(rewrite.value, arguments[i].value)
  }

  /** The authorized payload holds every argument exactly when no rewrite changed one. */
  lemma SurvivalExactly(request: Request, triggered: seq<Rule>)
    requires DictPayloads(triggered) && DistinctKeys(request.payload)
    requires PrintableMembers(ActionablePayload(request, triggered))
    ensures ArgumentsAuthorized(request.payload, ActionablePayload(request, triggered), [AXG_ARGUMENT])
      <==> ArgumentsSurvive(request, triggered, request.payload)
  {
    var payload := ActionablePayload(request, triggered);
    forall i | 0 <= i < |request.payload|
      ensures ArgumentAuthorized(request.payload[i], payload) <==>
        var rewrite := Rewrite(request, triggered, request.payload[i].key);
        rewrite.None? || PyEq(rewrite.value, request.payload[i].value)
    {
      var m := request.payload[i];
      PayloadValue(request, triggered, m.key);
      GetIsUnique(request.payload, m);
      if Rewrite(request, triggered, m.key).None? {
        var j :| 0 <= j < |payload| && payload[j] == Member(m.key, m.value);
        PyEqReflexive(m.value);
      }
    }
  }

  /** The injected argument is ignored: it changes no verdict on the others. */
  lemma InjectionIgnored(arguments: seq<Member>, context: Json, authorized: seq<Member>)
    requires DistinctKeys(arguments)
    ensures ArgumentsAuthorized(InjectContext(arguments, context), authorized, [AXG_ARGUMENT])
      <==> ArgumentsAuthorized(arguments, authorized, [AXG_ARGUMENT])
  {
    var injected := InjectContext(arguments, context);
    PutKeepsOthers(arguments, AXG_ARGUMENT, context);
    if ArgumentsAuthorized(arguments, authorized, [AXG_ARGUMENT]) {
      forall i | 0 <= i < |injected|
        ensures injected[i].key in [AXG_ARGUMENT] || ArgumentAuthorized(injected[i], authorized)
      {
        assert injected[i] in injected;
        if injected[i].key != AXG_ARGUMENT {
          var j :| 0 <= j < |arguments| && arguments[j] == injected[i];
        }
      }
    }
    if ArgumentsAuthorized(injected, authorized, [AXG_ARGUMENT]) {
      forall i | 0 <= i < |arguments|
        ensures arguments[i].key in [AXG_ARGUMENT] || ArgumentAuthorized(arguments[i], authorized)
      {
        if arguments[i].key != AXG_ARGUMENT {
          assert arguments[i] in injected;
          var j :| 0 <= j < |injected| && injected[j] == arguments[i];
        }
      }
    }
  }

  lemma {:induction false} PutKeepsOthers(ms: seq<Member>, key: string, value: Json)
    requires DistinctKeys(ms)
    ensures forall m: Member :: m.key != key ==> (m in Put(ms, key, value) <==> m in ms)
  {
    if ms != [] && ms[0].key != key {
      PutKeepsOthers(ms[1..], key, value);
    }
  }

  // ---------- completeness ----------

  /** A Passport AXG just issued passes every check for five minutes, arguments aside. */
  lemma FreshPassportPasses(rt: Runtime, h: Hash, plugin: Plugin, request: Request, caller: Caller,
                            verified: VerifiedContext, signer: Signer, r: Response, at: real, arguments: seq<Member>)
    requires Evaluation(rt, h, Some(plugin), request, caller, verified, signer) == Some(r) && r.passport.Some?
    requires signer.id != "" && signer.now <= at < (signer.now + PASSPORT_SECONDS as real).Floor as real
    ensures var x := Executor(request.appId, request.tenantId, signer.key, [AXG_ARGUMENT]);
      PassesChecks(h, x, ToolCall(request.actionType, arguments, r.passport, Some(Obj(r.payload))), at)
      <==> ArgumentsAuthorized(arguments, r.payload, [AXG_ARGUMENT])
    ensures r.passport.value.claims.jti == signer.id && r.passport.value.claims.aud == request.appId
    ensures r.passport.value.kid == signer.key && r.passport.value.typ == PASSPORT_TYP
    ensures r.payload == ActionablePayload(request, TriggeredFor(rt, plugin, request, verified))
    ensures PrintableMembers(r.payload)
  {
    hide Triggered, RuleData, StagedDecision, StagedFlags, ActionablePayload, ScoresOf, Raises, SignChallenge,
         ArgumentsAuthorized;
  }

  /**
   A forwarded ALLOW is accepted by the tool until the Passport expires, with or without the injected
   argument, exactly when no triggered rule and no category rewrite changed an argument and the cache does
   not hold the id.
   */
  lemma GatewayCompleteness(rt: Runtime, h: Hash, config: Config, params: Params, who: Identity, plugin: Plugin,
                            caller: Caller, verified: VerifiedContext, signer: Signer, context: Json, at: real,
                            seen: Seen)
    requires WellFormed(Obj(params.arguments)) && forall r :: r in plugin.rules ==> WellFormed(Obj(r.payload))
    requires signer.id != ""
    requires signer.now <= at < (signer.now + PASSPORT_SECONDS as real).Floor as real
    requires params.passport.None?
    requires var request := BuildRequest(config, params, who);
      Govern(config, params, Evaluation(rt, h, Some(plugin), request, caller, verified, signer), context, None).Forward?
    ensures var request := BuildRequest(config, params, who);
      var out := Govern(config, params, Evaluation(rt, h, Some(plugin), request, caller, verified, signer), context,
                        None);
      var x := Executor(config.appId, who.tenantId, signer.key, [AXG_ARGUMENT]);
      VerifyCall(h, x, AsToolCall(out.params), at, seen).result.Ok?
      <==> && ArgumentsSurvive(request, TriggeredFor(rt, plugin, request, verified), params.arguments)
           && IsFresh(seen, at, signer.id)
  {
    hide Evaluation, VerifyCall, ArgumentsAuthorized, ArgumentsSurvive, PassesChecks, WellFormed, InjectContext,
         ActionablePayload;
    var request := BuildRequest(config, params, who);
    var r := Evaluation(rt, h, Some(plugin), request, caller, verified, signer).value;
    var out := Govern(config, params, Some(r), context, None);
    var x := Executor(config.appId, who.tenantId, signer.key, [AXG_ARGUMENT]);
    var ts := TriggeredFor(rt, plugin, request, verified);
    FreshPassportPasses(rt, h, plugin, request, caller, verified, signer, r, at, out.params.arguments);
    AcceptedExactly(h, x, AsToolCall(out.params), at, seen);
    ArgumentsAreDict(params.arguments);
    InjectionIgnored(params.arguments, context, r.payload);
    TriggeredDicts(rt, plugin, request, verified);
    SurvivalExactly(request, ts);
  }

  lemma ArgumentsAreDict(arguments: seq<Member>)
    requires WellFormed(Obj(arguments))
    ensures DistinctKeys(arguments)
  {
  }

  lemma TriggeredDicts(rt: Runtime, plugin: Plugin, request: Request, verified: VerifiedContext)
    requires forall r :: r in plugin.rules ==> WellFormed(Obj(r.payload))
    ensures DictPayloads(TriggeredFor(rt, plugin, request, verified))
  {
    var ts := TriggeredFor(rt, plugin, request, verified);
    forall i | 0 <= i < |ts| ensures WellFormed(Obj(ts[i].payload)) {
      assert ts[i] in plugin.rules;
    }
  }

  /** Sent through the gateway again before it expires, an accepted call passes unchanged. */
  lemma ResendPasses(h: Hash, s: State, gateway: Caller, params: Params, x: Executor)
    requires x.ignored == [AXG_ARGUMENT] && PassesChecks(h, x, AsToolCall(params), s.now)
    requires params.passport.value.typ == PASSPORT_TYP && params.passport.value.kid == x.key
    requires (x.key == s.current || x.key in s.retired) && gateway.authenticated && gateway.MayActFor(x.appId)
    ensures forall config, decided, context ::
      Govern(config, params, decided, context, IntrospectEndpoint(h, s, gateway, params)) == Forward(params)
  {
    hide HashPayload, ArgumentsAuthorized;
  }

  /** So a forwarded ALLOW whose arguments survived passes the gateway a second time, unchanged. */
  lemma ForwardedPassesAgain(rt: Runtime, h: Hash, config: Config, params: Params, who: Identity, plugin: Plugin,
                             caller: Caller, verified: VerifiedContext, signer: Signer, context: Json, s: State,
                             gateway: Caller)
    requires WellFormed(Obj(params.arguments)) && forall r :: r in plugin.rules ==> WellFormed(Obj(r.payload))
    requires params.passport.None? && signer.id != ""
    requires signer.now <= s.now < (signer.now + PASSPORT_SECONDS as real).Floor as real
    requires (signer.key == s.current || signer.key in s.retired) && gateway.authenticated
      && gateway.MayActFor(config.appId)
    requires var request := BuildRequest(config, params, who);
      && Govern(config, params, Evaluation(rt, h, Some(plugin), request, caller, verified, signer), context,
                None).Forward?
      && ArgumentsSurvive(request, TriggeredFor(rt, plugin, request, verified), params.arguments)
    ensures var request := BuildRequest(config, params, who);
      var out := Govern(config, params, Evaluation(rt, h, Some(plugin), request, caller, verified, signer), context,
                        None);
      Govern(config, out.params, None, context, IntrospectEndpoint(h, s, gateway, out.params)) == out
  {
    hide Evaluation, VerifyCall, ArgumentsAuthorized, ArgumentsSurvive, WellFormed, InjectContext, ActionablePayload,
         IntrospectEndpoint, Triggered;
    var request := BuildRequest(config, params, who);
    var r := Evaluation(rt, h, Some(plugin), request, caller, verified, signer).value;
    var out := Govern(config, params, Some(r), context, None);
    var x := Executor(config.appId, who.tenantId, signer.key, [AXG_ARGUMENT]);
    FreshPassportPasses(rt, h, plugin, request, caller, verified, signer, r, s.now, out.params.arguments);
    ArgumentsAreDict(params.arguments);
    InjectionIgnored(params.arguments, context, r.payload);
    TriggeredDicts(rt, plugin, request, verified);
    SurvivalExactly(request, TriggeredFor(rt, plugin, request, verified));
    hide PassesChecks;
    ResendPasses(h, s, gateway, out.params, x);
  }

  /**
   The gateway fails closed: it forwards a call without a Passport exactly when AXG answered ALLOW, and
   one with a Passport exactly when its arguments match and AXG called it active. AXG is unavailable to it
   exactly when it was asked, for a decision or about matching arguments, and did not reply. A forwarded
   ALLOW carries the Passport and the decided payload, and its arguments but for the injected one.
   */
  lemma ForwardsExactly(rt: Runtime, h: Hash, config: Config, params: Params, who: Identity, plugin: Option<Plugin>,
                        caller: Caller, verified: VerifiedContext, signer: Signer, context: Json,
                        introspected: Option<Result<Claims, Inactive>>)
    ensures var request := BuildRequest(config, params, who);
      var reply := Evaluation(rt, h, plugin, request, caller, verified, signer);
      var out := Govern(config, params, reply, context, introspected);
      var matches := params.authorized.Some? && params.authorized.value.Obj?
                     && ArgumentsAuthorized(params.arguments, params.authorized.value.members, ["axg"]);
      && (out.Forward? <==>
            if params.passport.None? then reply.Some? && reply.value.decision == Allow
            else matches && introspected.Some? && introspected.value.Ok?)
      && (out.Unavailable? <==>
            if params.passport.None? then reply.None? else matches && introspected.None?)
      && (out.Refused? <==> params.passport.None? && reply.Some? && reply.value.decision != Allow)
      && (out.Forward? ==>
            if params.passport.Some? then out.params == params
            else
              && out.params.name == params.name && out.params.passport == reply.value.passport
              && out.params.authorized == Some(Obj(reply.value.payload))
              && forall key :: Get(out.params.arguments, key) ==
                   if config.cedarContext && key == "axg" then Some(context) else Get(params.arguments, key))
  {
    var request := BuildRequest(config, params, who);
    var reply := Evaluation(rt, h, plugin, request, caller, verified, signer);
    if reply.Some? {
      PassportExactly(rt, h, plugin, request, caller, verified, signer);
    }
    hide Evaluation;
  }
}
