/** The decision pipeline: what a request, a policy and a caller amount to, and what gets signed. */
module Engine {
  import opened Results
  import opened JsonValues
  import opened Rules
  import opened Scoring
  import opened Tokens
  import opened SignedContext

  // ---------- policies, callers, requests ----------

  datatype Thresholds = Thresholds(allowMin: UnitReal, suggestMin: UnitReal, highRisk: UnitReal)

  /** An empty role stands for none. */
  datatype ActionPolicy = ActionPolicy(
    requiredPermissions: seq<string>, baseRisk: UnitReal, approverRole: string, requiredContext: seq<string>)

  datatype Gate = Gate(
    actions: seq<string>, sources: seq<string>, suffixes: seq<string>, threshold: UnitReal, auditFlag: string)

  datatype Plugin = Plugin(
    name: string, version: string, thresholds: Thresholds, actions: map<string, ActionPolicy>,
    rules: seq<Rule>, gate: Gate, defaultRole: string, ticketTtl: nat)
  {
    function VersionLabel(): string {
      name + "@" + version
    }
  }

  const WILDCARD := "*"

  /** No permission set: the caller is trusted with any permission. */
  datatype Caller = Caller(clientId: string, authenticated: bool, appIds: set<string>, permissions: Option<set<string>>)
  {
    predicate MayActFor(appId: string) {
      WILDCARD in appIds || appId in appIds
    }

    predicate MayGrant(permission: string) {
      permissions.None? || WILDCARD in permissions.value || permission in permissions.value
    }

    /** `effective_permissions`: the requested ones this caller may grant. */
    function EffectivePermissions(requested: seq<string>): (r: seq<string>)
      ensures forall p :: p in r <==> p in requested && MayGrant(p)
    {
      if requested == [] then []
      else (if MayGrant(requested[0]) then [requested[0]] else []) + EffectivePermissions(requested[1..])
    }
  }

  datatype Agent = Agent(id: string, permissions: seq<string>)

  /** `dump` is the request's own `model_dump()`, the tree the rules read. An empty userId is none. */
  datatype Request = Request(
    executionId: string, tenantId: string, appId: string, pluginId: string, userId: string,
    agent: Option<Agent>, source: string, actionType: string, payload: seq<Member>,
    confidence: UnitReal, intent: seq<Member>, shadowMode: bool, dump: seq<Member>)

  // ---------- the uncertainty gate ----------

  predicate EndsWith(s: string, suffix: string) {
    |suffix| <= |s| && s[|s| - |suffix|..] == suffix
  }

  predicate UncertainSource(gate: Gate, source: string) {
    source in gate.sources || exists i :: 0 <= i < |gate.suffixes| && EndsWith(source, gate.suffixes[i])
  }

  predicate NamesGatedAction(gate: Gate, v: Option<Json>) {
    v.Some? && v.value.Str? && v.value.s in gate.actions
  }

  /** A list or object is unhashable: looking it up in a set raises TypeError. */
  predicate Unhashable(v: Option<Json>) {
    v.Some? && (v.value.Arr? || v.value.Obj?)
  }

  function ProposedAction(request: Request): Option<Json> {
    Get(request.payload, "proposed_action")
  }

  function ResolvedIntent(request: Request): Option<Json> {
    Get(request.intent, "resolved")
  }

  predicate GatedWrite(plugin: Plugin, request: Request) {
    || request.actionType in plugin.gate.actions
    || NamesGatedAction(plugin.gate, ProposedAction(request))
    || NamesGatedAction(plugin.gate, ResolvedIntent(request))
  }

  /** `_is_gated_write` raises: it meets an unhashable value before a gated name. */
  predicate GateRaises(plugin: Plugin, request: Request) {
    && request.actionType !in plugin.gate.actions
    && (Unhashable(ProposedAction(request))
        || (!NamesGatedAction(plugin.gate, ProposedAction(request)) && Unhashable(ResolvedIntent(request))))
  }

  predicate UnknownIntent(request: Request) {
    Get(request.intent, "original") == Some(Str("unknown"))
  }

  predicate IntentFellBack(request: Request) {
    Get(request.intent, "fallback_used") == Some(Bool(true))
  }

  function RawUncertainty(plugin: Plugin, request: Request): real {
    var s :=
      (if UnknownIntent(request) then 0.8 else 0.0)
      + (if IntentFellBack(request) then 0.2 else 0.0)
      + (if UncertainSource(plugin.gate, request.source) then 0.1 else 0.0);
    if GatedWrite(plugin, request) && UncertainSource(plugin.gate, request.source) && request.intent == []
       && s < plugin.gate.threshold
    then plugin.gate.threshold
    else s
  }

  /** `_uncertainty_score`. */
  method UncertaintyScore(plugin: Plugin, request: Request) returns (r: real)
    ensures r == Clamp(RawUncertainty(plugin, request))
  {
    var score := 0.0;
    if UnknownIntent(request) {
      score := score + 0.8;
    }
    if IntentFellBack(request) {
      score := score + 0.2;
    }
    if UncertainSource(plugin.gate, request.source) {
      score := score + 0.1;
    }
    if GatedWrite(plugin, request) && UncertainSource(plugin.gate, request.source) && request.intent == [] {
      score := if score < plugin.gate.threshold then plugin.gate.threshold else score;
    }
    r := Clamp(score);
  }

  /** The gate asks for a confirmation. */
  predicate GateFires(plugin: Plugin, request: Request) {
    GatedWrite(plugin, request) && Clamp(RawUncertainty(plugin, request)) >= plugin.gate.threshold
  }

  // ---------- scores ----------

  datatype Scores = Scores(confidence: real, finalConfidence: real, risk: real, uncertainty: real)

  function DefaultPenalty(d: Decision): UnitReal {
    match d
    case Allow => 0.0
    case Suggest => 0.1
    case Confirm => 0.25
    case Block => 0.5
  }

  function Penalty(rules: seq<Rule>): (p: real)
    ensures p >= 0.0
  {
    if rules == [] then 0.0
    else
      var p := rules[0].confidencePenalty;
      (if p != 0.0 then p else DefaultPenalty(rules[0].decision)) + Penalty(rules[1..])
  }

  function RiskDelta(rules: seq<Rule>): (d: real)
    ensures d >= 0.0
  {
    if rules == [] then 0.0 else rules[0].riskDelta + RiskDelta(rules[1..])
  }

  function BaseRisk(plugin: Plugin, request: Request): real {
    if request.actionType in plugin.actions then plugin.actions[request.actionType].baseRisk
    else plugin.thresholds.highRisk
  }

  /** `_scores`. */
  function ScoresOf(plugin: Plugin, request: Request, triggered: seq<Rule>): Scores {
    Scores(
      request.confidence,
      Clamp(request.confidence - Penalty(triggered)),
      Clamp(BaseRisk(plugin, request) + RiskDelta(triggered)),
      Clamp(RawUncertainty(plugin, request)))
  }

  // ---------- the decision ----------

  predicate HoldsPermissions(plugin: Plugin, request: Request, caller: Caller) {
    request.actionType in plugin.actions ==>
      var granted := if request.agent.Some? then caller.EffectivePermissions(request.agent.value.permissions) else [];
      forall p :: p in plugin.actions[request.actionType].requiredPermissions ==> p in granted
  }

  function RuleDecisions(triggered: seq<Rule>): (r: seq<Decision>)
    ensures |r| == |triggered| && forall i :: 0 <= i < |r| ==> r[i] == triggered[i].decision
  {
    seq(|triggered|, i requires 0 <= i < |triggered| => triggered[i].decision)
  }

  /** `max(decisions, key=precedence)`. */
  function Strictest(ds: seq<Decision>): (d: Decision)
    requires ds != []
    ensures d in ds && forall x :: x in ds ==> Rank(x) <= Rank(d)
  {
    if |ds| == 1 then ds[0]
    else
      var rest := Strictest(ds[1..]);
      assert forall x :: x in ds ==> x == ds[0] || x in ds[1..];
      if Rank(rest) > Rank(ds[0]) then rest else ds[0]
  }

  function ThresholdDecision(plugin: Plugin, request: Request): Decision {
    if request.actionType !in plugin.actions then Confirm
    else if request.confidence >= plugin.thresholds.allowMin then Allow
    else if request.confidence >= plugin.thresholds.suggestMin then Suggest
    else Confirm
  }

  /** `_final_decision`. */
  function FinalDecision(plugin: Plugin, request: Request, triggered: seq<Rule>, caller: Caller): Decision {
    var decisions := RuleDecisions(triggered)
      + (if HoldsPermissions(plugin, request, caller) then [] else [Block])
      + (if GateFires(plugin, request) then [Confirm] else []);
    if decisions != [] then Strictest(decisions) else ThresholdDecision(plugin, request)
  }

  /** `_missing_context`. */
  predicate ContextMissing(plugin: Plugin, request: Request, verified: VerifiedContext) {
    request.actionType in plugin.actions
    && exists i :: 0 <= i < |plugin.actions[request.actionType].requiredContext|
                   && Get(verified.facts, plugin.actions[request.actionType].requiredContext[i]).None?
  }

  /** The decision before signing: rules, permissions and gate, then required context, then the caller. */
  function StagedDecision(plugin: Plugin, request: Request, triggered: seq<Rule>, caller: Caller,
                          verified: VerifiedContext): Decision
  {
    var d := FinalDecision(plugin, request, triggered, caller);
    var d' := if ContextMissing(plugin, request, verified) && Rank(d) < Rank(Confirm) then Confirm else d;
    if d' == Allow && !caller.authenticated then Confirm else d'
  }

  // ---------- the actionable payload ----------

  /** `payload.update(updates)`. */
  function Update(payload: seq<Member>, updates: seq<Member>): seq<Member>
    decreases |updates|
  {
    if updates == [] then payload else Update(Put(payload, updates[0].key, updates[0].value), updates[1..])
  }

  function UpdateAll(payload: seq<Member>, triggered: seq<Rule>): seq<Member>
    decreases |triggered|
  {
    if triggered == [] then payload else UpdateAll(Update(payload, triggered[0].payload), triggered[1..])
  }

  function SeedPayload(request: Request): seq<Member> {
    var p :=
      if Get(request.payload, "proposed_action").None? then
        Put(request.payload, "proposed_action", Str(request.actionType))
      else request.payload;
    match Get(request.payload, "proposed_category")
    case None => p
    case Some(c) => Put(p, "suggested_category", c)
  }

  function ActionablePayload(request: Request, triggered: seq<Rule>): seq<Member> {
    UpdateAll(SeedPayload(request), triggered)
  }

  /** `_actionable_payload`. */
  method BuildPayload(request: Request, triggered: seq<Rule>) returns (payload: seq<Member>)
    ensures payload == ActionablePayload(request, triggered)
  {
    payload := request.payload;
    if Get(payload, "proposed_action").None? {
      payload := Put(payload, "proposed_action", Str(request.actionType));
    }
    var category := Get(request.payload, "proposed_category");
    if category.Some? {
      payload := Put(payload, "suggested_category", category.value);
    }
    for i := 0 to |triggered|
      invariant ActionablePayload(request, triggered) == UpdateAll(payload, triggered[i..])
    {
      payload := Update(payload, triggered[i].payload);
    }
  }

  // ---------- the approver ----------

  function InsertByRank(r: Rule, rs: seq<Rule>): seq<Rule> {
    if rs == [] then [r]
    else if Rank(rs[0].decision) <= Rank(r.decision) then [r] + rs
    else [rs[0]] + InsertByRank(r, rs[1..])
  }

  /** `sorted(rules, key=precedence, reverse=True)`: strictest first, equals in their given order. */
  function SortByRank(rs: seq<Rule>): seq<Rule> {
    if rs == [] then [] else InsertByRank(rs[0], SortByRank(rs[1..]))
  }

  /** The first rule that names a role. */
  function FirstWithRole(rs: seq<Rule>): Option<Rule> {
    if rs == [] then None
    else if rs[0].approverRole != "" then Some(rs[0])
    else FirstWithRole(rs[1..])
  }

  /** `_approver_role`. */
  function ApproverRole(plugin: Plugin, request: Request, triggered: seq<Rule>): string {
    var rule := FirstWithRole(SortByRank(triggered));
    if rule.Some? then rule.value.approverRole
    else if request.actionType in plugin.actions && plugin.actions[request.actionType].approverRole != ""
    then plugin.actions[request.actionType].approverRole
    else plugin.defaultRole
  }

  // ---------- audit flags ----------

  /** `list(dict.fromkeys(flags))`. */
  function Dedup(flags: seq<string>): (r: seq<string>)
    ensures forall f :: f in r <==> f in flags
    decreases |flags|
  {
    if flags == [] then []
    else
      var init := Dedup(flags[..|flags| - 1]);
      var last := flags[|flags| - 1];
      assert flags == flags[..|flags| - 1] + [last];
      if last in init then init else init + [last]
  }

  function RuleFlags(triggered: seq<Rule>): seq<string> {
    if triggered == [] then []
    else
      var own := if triggered[0].auditFlags != [] then triggered[0].auditFlags else [triggered[0].id];
      own + RuleFlags(triggered[1..])
  }

  function AddFlag(flags: seq<string>, condition: bool, flag: string): seq<string> {
    if condition then flags + [flag] else flags
  }

  function EvaluationFlags(plugin: Plugin, request: Request, triggered: seq<Rule>): seq<string> {
    var flags := AddFlag(RuleFlags(triggered), UnknownIntent(request), "unknown_intent");
    var flags := AddFlag(flags, IntentFellBack(request), "fallback_used");
    var flags := AddFlag(flags, GateFires(plugin, request), plugin.gate.auditFlag);
    Dedup(AddFlag(flags, request.shadowMode, "shadow_mode_active"))
  }

  /** `_audit_flags`. */
  method AuditFlags(plugin: Plugin, request: Request, triggered: seq<Rule>) returns (r: seq<string>)
    ensures r == EvaluationFlags(plugin, request, triggered)
  {
    hide GateFires, UnknownIntent, IntentFellBack, Dedup;
    var flags := [];
    for i := 0 to |triggered|
      invariant RuleFlags(triggered) == flags + RuleFlags(triggered[i..])
    {
      if triggered[i].auditFlags != [] {
        flags := flags + triggered[i].auditFlags;
      } else {
        flags := flags + [triggered[i].id];
      }
    }
    assert flags == RuleFlags(triggered);
    if UnknownIntent(request) {
      flags := flags + ["unknown_intent"];
    }
    if IntentFellBack(request) {
      flags := flags + ["fallback_used"];
    }
    if GateFires(plugin, request) {
      flags := flags + [plugin.gate.auditFlag];
    }
    if request.shadowMode {
      flags := flags + ["shadow_mode_active"];
    }
    r := Dedup(flags);
  }

  // ---------- the response ----------

  datatype Response = Response(
    executionId: string, pluginVersion: string, decision: Decision, passport: Option<Token>,
    ticket: Option<Token>, scores: Scores, payload: seq<Member>, flags: seq<string>,
    triggered: seq<Rule>, shadowMode: bool)

  const SIGNING_FAILED := "passport_signing_failed"

  /** `_fail_safe`. */
  function FailSafe(request: Request): Response {
    Response(request.executionId, request.pluginId + "@unavailable", Confirm, None, None,
             Scores(request.confidence, 0.0, 1.0, 1.0), [], ["plugin_load_failed"], [], false)
  }

  function AgentId(request: Request): string {
    if request.agent.Some? then request.agent.value.id else ""
  }

  function SignPassport(h: Hash, plugin: Plugin, request: Request, caller: Caller, payload: seq<Member>,
                        signer: Signer): Option<Token>
  {
    SignDecision(h, signer, request.executionId, request.appId, request.tenantId, request.actionType,
                 payload, caller.clientId, plugin.VersionLabel(), "", None)
  }

  function SignChallenge(h: Hash, plugin: Plugin, request: Request, triggered: seq<Rule>, decision: Decision,
                         caller: Caller, payload: seq<Member>, signer: Signer): Option<Token>
  {
    SignTicket(h, signer, request.executionId, request.appId, request.tenantId, plugin.VersionLabel(), decision,
               request.actionType, payload, caller.clientId,
               TicketClaims(request.pluginId, ApproverRole(plugin, request, triggered), request.userId,
                            AgentId(request)), plugin.ticketTtl)
  }

  /** The flags collected before signing. */
  function StagedFlags(plugin: Plugin, request: Request, triggered: seq<Rule>, caller: Caller,
                       verified: VerifiedContext): seq<string>
  {
    var missing := ContextMissing(plugin, request, verified);
    var d := FinalDecision(plugin, request, triggered, caller);
    var raised := if missing && Rank(d) < Rank(Confirm) then Confirm else d;
    var flags := AddFlag(EvaluationFlags(plugin, request, triggered), verified.rejected != [],
                         "signed_context_rejected");
    var flags := AddFlag(flags, missing, "verified_context_missing");
    AddFlag(flags, raised == Allow && !caller.authenticated, "unauthenticated_caller")
  }

  /** A rule compares an integer too large for a float, or the gate meets an unhashable value. */
  predicate Raises(rt: Runtime, plugin: Plugin, request: Request, verified: VerifiedContext) {
    RulesRaise(rt, plugin.rules, RuleData(request.dump, verified.facts)) || GateRaises(plugin, request)
  }

  /** What `_evaluate` answers; None when it raises. */
  function Evaluation(rt: Runtime, h: Hash, plugin: Option<Plugin>, request: Request, caller: Caller,
                      verified: VerifiedContext, signer: Signer): Option<Response>
  {
    if plugin.None? then Some(FailSafe(request))
    else if Raises(rt, plugin.value, request, verified) then None
    else
      var pl := plugin.value;
      var triggered := Triggered(rt, pl.rules, RuleData(request.dump, verified.facts));
      var payload := ActionablePayload(request, triggered);
      var staged := StagedDecision(pl, request, triggered, caller, verified);
      var flags := StagedFlags(pl, request, triggered, caller, verified);
      var signs := staged == Allow && !request.shadowMode;
      var passport := if signs then SignPassport(h, pl, request, caller, payload, signer) else None;
      var failed := signs && passport.None?;
      var decision := if failed then Confirm else staged;
      var allFlags := AddFlag(flags, failed, SIGNING_FAILED);
      var asks := (decision == Confirm || decision == Suggest) && caller.authenticated && !request.shadowMode
                  && SIGNING_FAILED !in allFlags;
      var ticket := if asks then SignChallenge(h, pl, request, triggered, decision, caller, payload, signer) else None;
      Some(Response(request.executionId, pl.VersionLabel(), decision, passport, ticket,
                    ScoresOf(pl, request, triggered), payload, allFlags, triggered, request.shadowMode))
  }

  /** `_evaluate`: the decision only rises from stage to stage. */
  method Evaluate(rt: Runtime, h: Hash, plugin: Option<Plugin>, request: Request, caller: Caller,
                  verified: VerifiedContext, signer: Signer) returns (r: Option<Response>)
    ensures r == Evaluation(rt, h, plugin, request, caller, verified, signer)
  {
    hide Triggered, RuleData, ScoresOf, FinalDecision, EvaluationFlags, ActionablePayload, ContextMissing, GateRaises,
         RulesRaise, SignPassport, SignChallenge;
    if plugin.None? {
      return Some(FailSafe(request));
    }
    var pl := plugin.value;
    var data := RuleData(request.dump, verified.facts);
    if RulesRaise(rt, pl.rules, data) {
      return None;
    }
    var triggered := Triggered(rt, pl.rules, data);
    if GateRaises(pl, request) {
      return None;
    }
    var scores := ScoresOf(pl, request, triggered);
    var decision := FinalDecision(pl, request, triggered, caller);
    var flags := AuditFlags(pl, request, triggered);
    var payload := BuildPayload(request, triggered);
    if verified.rejected != [] {
      flags := flags + ["signed_context_rejected"];
    }
    if ContextMissing(pl, request, verified) {
      flags := flags + ["verified_context_missing"];
      if Rank(decision) < Rank(Confirm) {
        decision := Confirm;
      }
    }
    if decision == Allow && !caller.authenticated {
      decision := Confirm;
      flags := flags + ["unauthenticated_caller"];
    }
    var passport := None;
    if decision == Allow && !request.shadowMode {
      passport := SignPassport(h, pl, request, caller, payload, signer);
      if passport.None? {
        flags := flags + [SIGNING_FAILED];
        decision := Confirm;
      }
    }
    var ticket := None;
    if (decision == Confirm || decision == Suggest) && caller.authenticated && !request.shadowMode
       && SIGNING_FAILED !in flags
    {
      ticket := SignChallenge(h, pl, request, triggered, decision, caller, payload, signer);
    }
    r := Some(Response(request.executionId, pl.VersionLabel(), decision, passport, ticket, scores, payload, flags,
                       triggered, request.shadowMode));
  }
}
