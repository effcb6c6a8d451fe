/**
 What the parts of a policy mean: thresholds, permissions, gate, required context, approvers, scores and
 flags, each in terms of requests, callers and tokens.
 */
module PolicyProperties {
  import opened Results
  import opened JsonValues
  import opened Rules
  import opened Scoring
  import opened Tokens
  import opened SignedContext
  import opened Engine
  import opened EngineProperties

  // ---------- confidence ----------

  /** The request with another confidence; what the rules see of it is given. */
  predicate SameButConfidence(request: Request, request': Request) {
    request' == request.(confidence := request'.confidence, dump := request'.dump)
  }

  lemma ConfidenceOnlyThere(plugin: Plugin, request: Request, request': Request, caller: Caller,
                            verified: VerifiedContext, triggered: seq<Rule>)
    requires SameButConfidence(request, request')
    ensures HoldsPermissions(plugin, request, caller) == HoldsPermissions(plugin, request', caller)
    ensures GateFires(plugin, request) == GateFires(plugin, request')
    ensures ContextMissing(plugin, request, verified) == ContextMissing(plugin, request', verified)
    ensures ActionablePayload(request, triggered) == ActionablePayload(request', triggered)
  {
  }

  /** Before the caller and the key are looked at, more confidence never makes the decision stricter. */
  lemma ConfidenceNeverRaises(plugin: Plugin, request: Request, request': Request, triggered: seq<Rule>,
                              caller: Caller)
    requires SameButConfidence(request, request') && request.confidence <= request'.confidence
    ensures Rank(FinalDecision(plugin, request', triggered, caller))
         <= Rank(FinalDecision(plugin, request, triggered, caller))
  {
    hide FinalDecision, HoldsPermissions, GateFires, ContextMissing, ActionablePayload;
    ConfidenceOnlyThere(plugin, request, request', caller, VerifiedContext([], []), triggered);
    FinalDecisionExactly(plugin, request, triggered, caller);
    FinalDecisionExactly(plugin, request', triggered, caller);
  }

  /**
   In the end it does exactly where a SUGGEST would become an ALLOW that an anonymous caller, a key that
   does not work or a payload without canonical text turns into a CONFIRM.
   */
  lemma ConfidenceRaisesExactly(rt: Runtime, h: Hash, plugin: Plugin, request: Request, request': Request,
                                caller: Caller, verified: VerifiedContext, signer: Signer)
    requires SameButConfidence(request, request') && request.confidence <= request'.confidence
    requires TriggeredFor(rt, plugin, request, verified) == TriggeredFor(rt, plugin, request', verified)
    requires !Raises(rt, plugin, request, verified) && !Raises(rt, plugin, request', verified)
    ensures var d := Evaluation(rt, h, Some(plugin), request, caller, verified, signer).value.decision;
      var d' := Evaluation(rt, h, Some(plugin), request', caller, verified, signer).value.decision;
      var ts := TriggeredFor(rt, plugin, request, verified);
      Rank(d') > Rank(d) <==>
        && d == Suggest && ts == [] && request'.confidence >= plugin.thresholds.allowMin
        && (!caller.authenticated
            || (!request.shadowMode && !(signer.usable && PrintableMembers(ActionablePayload(request, ts)))))
  {
    hide Evaluation, Raises, HoldsPermissions, GateFires, ContextMissing, ActionablePayload, Triggered, RuleData,
         AnyDecides;
    var ts := TriggeredFor(rt, plugin, request, verified);
    ConfidenceOnlyThere(plugin, request, request', caller, verified, ts);
    DecisionExactly(rt, h, plugin, request, caller, verified, signer);
    DecisionExactly(rt, h, plugin, request', caller, verified, signer);
    if AnyDecides(ts, Suggest) {
      Decides(ts, Suggest);
    }
  }

  lemma Decides(ts: seq<Rule>, d: Decision)
    requires AnyDecides(ts, d)
    ensures ts != []
  {
  }

  // ---------- permissions ----------

  /** The request's agent asks for the permission, and its caller may grant it. */
  predicate Granted(request: Request, caller: Caller, permission: string) {
    && request.agent.Some? && permission in request.agent.value.permissions
    && (caller.permissions.Some? ==> permission in caller.permissions.value || "*" in caller.permissions.value)
  }

  /** An undeclared action needs no permissions, a declared one all it requires. */
  lemma PermissionsExactly(plugin: Plugin, request: Request, caller: Caller)
    ensures HoldsPermissions(plugin, request, caller) <==>
      request.actionType in plugin.actions ==>
        forall p :: p in plugin.actions[request.actionType].requiredPermissions ==> Granted(request, caller, p)
  {
  }

  // ---------- the gate ----------

  /** A gated name is the action, or the text proposed as the action, or the intent as resolved. */
  lemma GatedWriteExactly(plugin: Plugin, request: Request)
    ensures GatedWrite(plugin, request) <==>
      exists name :: name in plugin.gate.actions
        && (|| request.actionType == name
            || Get(request.payload, "proposed_action") == Some(Str(name))
            || Get(request.intent, "resolved") == Some(Str(name)))
  {
  }

  /** An uncertain source is listed, or ends in a listed suffix. */
  lemma SourceExactly(gate: Gate, source: string)
    ensures UncertainSource(gate, source) <==>
      source in gate.sources || exists suffix, start: string :: suffix in gate.suffixes && source == start + suffix
  {
    if suffix, start: string :| suffix in gate.suffixes && source == start + suffix {
      var i :| 0 <= i < |gate.suffixes| && gate.suffixes[i] == suffix;
      assert EndsWith(source, gate.suffixes[i]);
    }
    if i :| 0 <= i < |gate.suffixes| && EndsWith(source, gate.suffixes[i]) {
      var suffix := gate.suffixes[i];
      assert suffix in gate.suffixes && source == source[..|source| - |suffix|] + suffix;
    }
  }

  /**
   The default gate fires on a gated write whose intent is unknown, or that comes from an uncertain source
   without any intent, and on nothing else.
   */
  lemma DefaultGateExactly(plugin: Plugin, request: Request)
    requires plugin.gate.threshold == 0.7
    ensures GateFires(plugin, request) <==>
      && GatedWrite(plugin, request)
      && (|| Get(request.intent, "original") == Some(Str("unknown"))
          || (UncertainSource(plugin.gate, request.source) && request.intent == []))
  {
    hide GateFires, GatedWrite, UncertainSource;
    GateExactly(plugin, request);
    assert (0.7 * 10000.0).Floor == 7000;
  }

  // ---------- what the gate cannot look up ----------

  predicate ListOrDict(v: Option<Json>) {
    v.Some? && (v.value.Arr? || v.value.Obj?)
  }

  /**
   The gate raises exactly on a list or object proposed as the action, or resolved as the intent, that it
   meets before a gated name.
   */
  lemma GateRaisesExactly(plugin: Plugin, request: Request)
    ensures var proposed, resolved := Get(request.payload, "proposed_action"), Get(request.intent, "resolved");
      GateRaises(plugin, request) <==>
        && request.actionType !in plugin.gate.actions
        && (forall name :: proposed == Some(Str(name)) ==> name !in plugin.gate.actions)
        && (ListOrDict(proposed) || ListOrDict(resolved))
  {
  }

  // ---------- required context ----------

  lemma FactsHaveProvider(providers: seq<Provider>, token: ContextToken, check: Check)
    requires Configured(providers, check) && VerifyToken(token, check).Ok?
    ensures exists i :: 0 <= i < |providers| && providers[i].id == VerifyToken(token, check).value.key
  {
    UniquenessExactly(providers);
    ByIssuerContents(providers);
    assert HasIssuer(providers, token.issuer);
    var i :| 0 <= i < |providers| && providers[i].issuer == token.issuer;
    ByIssuerFinds(providers, i);
  }

  /** The provider vouches for none of the tokens. */
  ghost predicate VouchesForNone(p: Provider, tokens: seq<ContextToken>, check: Check) {
    forall t :: t in tokens ==> !VouchedBy(t, p, check)
  }

  /** No configured provider of this id vouches for any of the tokens. */
  ghost predicate Unvouched(providers: seq<Provider>, tokens: seq<ContextToken>, check: Check, id: string) {
    forall i :: 0 <= i < |providers| && providers[i].id == id ==> VouchesForNone(providers[i], tokens, check)
  }

  lemma NoFactsExactly(providers: seq<Provider>, tokens: seq<ContextToken>, check: Check, id: string)
    requires Configured(providers, check)
    ensures Get(ContextOf(tokens, check).facts, id).None? <==> Unvouched(providers, tokens, check, id)
  {
    hide VouchedBy, Configured, ContextOf, Get, FirstVouched;
    forall i | 0 <= i < |providers| && providers[i].id == id
      ensures Get(ContextOf(tokens, check).facts, id).None? <==> VouchesForNone(providers[i], tokens, check)
    {
      FactsExactly(providers, tokens, check, i);
    }
    if Get(ContextOf(tokens, check).facts, id).Some? {
      ContextConservation(tokens, check);
      var t := EarliestToken(tokens, check, id);
      FactsHaveProvider(providers, t, check);
    }
  }

  /** Context is missing when the action requires a provider that vouches for none of the tokens. */
  lemma ContextMissingExactly(plugin: Plugin, request: Request, providers: seq<Provider>, tokens: seq<ContextToken>,
                              check: Check)
    requires Configured(providers, check)
    ensures ContextMissing(plugin, request, ContextOf(tokens, check)) <==>
      && request.actionType in plugin.actions
      && exists id :: id in plugin.actions[request.actionType].requiredContext
                      && Unvouched(providers, tokens, check, id)
  {
    hide Unvouched, Configured, ContextOf, Get;
    if request.actionType in plugin.actions {
      var required := plugin.actions[request.actionType].requiredContext;
      forall id | id in required
        ensures Get(ContextOf(tokens, check).facts, id).None? <==> Unvouched(providers, tokens, check, id)
      {
        NoFactsExactly(providers, tokens, check, id);
      }
    }
  }

  // ---------- the approver ----------

  /**
   The role that must approve: of the strictest rule that names one and the earliest of those, else the
   action's, else the policy's.
   */
  lemma ApproverExactly(plugin: Plugin, request: Request, triggered: seq<Rule>)
    ensures var role := ApproverRole(plugin, request, triggered);
      if forall t :: t in triggered ==> t.approverRole == "" then
        role == if request.actionType in plugin.actions && plugin.actions[request.actionType].approverRole != ""
                then plugin.actions[request.actionType].approverRole else plugin.defaultRole
      else exists i :: 0 <= i < |triggered| && PicksRole(triggered, i) && role == triggered[i].approverRole
  {
    hide SortByRank, FirstWithRole;
    var i := StrictestRoleWins(triggered);
  }

  // ---------- scores ----------

  /** What one rule takes from the confidence: its own penalty, or that of its decision. */
  function OwnPenalty(r: Rule): real {
    if r.confidencePenalty > 0.0 then r.confidencePenalty else [0.0, 0.1, 0.25, 0.5][Rank(r.decision)]
  }

  /** Each triggered rule adds its own penalty and risk. */
  lemma {:induction false} SumsExactly(a: seq<Rule>, r: Rule, b: seq<Rule>)
    ensures Penalty(a + [r] + b) == Penalty(a) + OwnPenalty(r) + Penalty(b)
    ensures RiskDelta(a + [r] + b) == RiskDelta(a) + r.riskDelta + RiskDelta(b)
    decreases |a|
  {
    if a == [] {
      assert a + [r] + b == [r] + b && ([r] + b)[1..] == b;
    } else {
      assert (a + [r] + b)[1..] == a[1..] + [r] + b;
      SumsExactly(a[1..], r, b);
    }
  }

  /** The score is x, kept within [0, 1] and rounded to 0.0001. */
  predicate ScoreOf(x: real, score: real) {
    OnGrid(score) && Distance(Bounded(x), score) <= 0.00005
  }

  /**
   The scores: confidence less the rules' penalties, the action's risk (high if undeclared) plus theirs, and
   the sum of the uncertainty signals, at least the threshold for a gated write of an uncertain source
   without intent.
   */
  lemma ScoresExactly(plugin: Plugin, request: Request, triggered: seq<Rule>)
    ensures var s := ScoresOf(plugin, request, triggered);
      var risk: real := if request.actionType in plugin.actions then plugin.actions[request.actionType].baseRisk
                        else plugin.thresholds.highRisk;
      && s.confidence == request.confidence
      && ScoreOf(request.confidence - Penalty(triggered), s.finalConfidence)
      && ScoreOf(risk + RiskDelta(triggered), s.risk)
      && var signals, least: real := Signals(plugin, request), plugin.gate.threshold;
         var blind := GatedWrite(plugin, request) && UncertainSource(plugin.gate, request.source)
                      && request.intent == [];
         ScoreOf(if blind && least > signals then least else signals, s.uncertainty)
  {
    hide Clamp, Penalty, RiskDelta, Bounded, Distance, OnGrid, GatedWrite, UncertainSource, UnknownIntent,
         IntentFellBack;
    ClampIsClose(request.confidence - Penalty(triggered));
    ClampIsClose(RawUncertainty(plugin, request));
    ClampIsClose(BaseRisk(plugin, request) + RiskDelta(triggered));
  }

  /** Without a policy the answer has the worst scores any policy could give. */
  lemma FailSafeIsWorst(rt: Runtime, h: Hash, request: Request, caller: Caller, verified: VerifiedContext,
                        signer: Signer, plugin: Plugin, triggered: seq<Rule>)
    ensures var r := Evaluation(rt, h, None, request, caller, verified, signer);
      && r.Some? && r.value.decision == Confirm && r.value.passport.None? && r.value.ticket.None?
      && r.value.executionId == request.executionId && r.value.pluginVersion == request.pluginId + "@unavailable"
      && r.value.payload == [] && r.value.flags == ["plugin_load_failed"] && r.value.triggered == []
      && var worst, s := r.value.scores, ScoresOf(plugin, request, triggered);
         && worst.finalConfidence == 0.0 && worst.risk == 1.0 && worst.uncertainty == 1.0
         && worst.confidence == s.confidence && worst.finalConfidence <= s.finalConfidence && s.risk <= worst.risk
         && s.uncertainty <= worst.uncertainty
  {
  }

  // ---------- flags ----------

  /** The flags of an answer: those of rules, intent, gate and shadow mode, and one for each stage that raised it. */
  lemma AnswerFlagsExactly(rt: Runtime, h: Hash, plugin: Plugin, request: Request, caller: Caller,
                           verified: VerifiedContext, signer: Signer, flag: string)
    requires !Raises(rt, plugin, request, verified)
    ensures var r := Evaluation(rt, h, Some(plugin), request, caller, verified, signer).value;
      var ts := TriggeredFor(rt, plugin, request, verified);
      var allowed := FinalDecision(plugin, request, ts, caller) == Allow && !ContextMissing(plugin, request, verified);
      flag in r.flags <==>
        || Raised(plugin, request, ts, flag)
        || (flag == "unknown_intent" && Get(request.intent, "original") == Some(Str("unknown")))
        || (flag == "fallback_used" && Get(request.intent, "fallback_used") == Some(Bool(true)))
        || (flag == "shadow_mode_active" && request.shadowMode)
        || (flag == "signed_context_rejected" && verified.rejected != [])
        || (flag == "verified_context_missing" && ContextMissing(plugin, request, verified))
        || (flag == "unauthenticated_caller" && allowed && !caller.authenticated)
        || (flag == "passport_signing_failed" && allowed && caller.authenticated && !request.shadowMode
            && !(signer.usable && PrintableMembers(ActionablePayload(request, ts))))
  {
    hide Triggered, RuleData, FinalDecision, ContextMissing, ActionablePayload, EvaluationFlags, ScoresOf, Raises,
         GateFires, ApproverRole, SignChallenge;
    FlagsExactly(plugin, request, TriggeredFor(rt, plugin, request, verified), flag);
  }

  /** The first triggered rule's own first flag, or its id, comes first. */
  lemma FirstFlag(plugin: Plugin, request: Request, triggered: seq<Rule>)
    requires triggered != []
    ensures var flags, first := EvaluationFlags(plugin, request, triggered), triggered[0];
      flags != [] && flags[0] == if first.auditFlags != [] then first.auditFlags[0] else first.id
  {
    hide GateFires, UnknownIntent, IntentFellBack, Dedup;
    var flags := AddFlag(RuleFlags(triggered), UnknownIntent(request), "unknown_intent");
    var flags1 := AddFlag(flags, IntentFellBack(request), "fallback_used");
    var flags2 := AddFlag(flags1, GateFires(plugin, request), plugin.gate.auditFlag);
    DedupKeepsFirst(AddFlag(flags2, request.shadowMode, "shadow_mode_active"));
  }

  lemma {:induction false} DedupKeepsFirst(flags: seq<string>)
    requires flags != []
    ensures Dedup(flags) != [] && Dedup(flags)[0] == flags[0]
    decreases |flags|
  {
    if |flags| > 1 {
      DedupKeepsFirst(flags[..|flags| - 1]);
    } else {
      assert flags[..0] == [];
    }
  }

  // ---------- the answer ----------

  /** An answer names its request and policy and gives the payload that was decided, with a token or without. */
  lemma AnswerExactly(rt: Runtime, h: Hash, plugin: Plugin, request: Request, caller: Caller,
                      verified: VerifiedContext, signer: Signer, key: string)
    requires !Raises(rt, plugin, request, verified) && forall r :: r in plugin.rules ==> WellFormed(Obj(r.payload))
    ensures var r := Evaluation(rt, h, Some(plugin), request, caller, verified, signer).value;
      var rewrite := Rewrite(request, r.triggered, key);
      && r.executionId == request.executionId && r.shadowMode == request.shadowMode
      && r.pluginVersion == plugin.VersionLabel()
      && r.triggered == TriggeredFor(rt, plugin, request, verified)
      && r.scores == ScoresOf(plugin, request, r.triggered)
      && Get(r.payload, key) ==
           if rewrite.Some? then rewrite
           else if key == "proposed_action" && Get(request.payload, key).None? then Some(Str(request.actionType))
           else Get(request.payload, key)
  {
    hide Raises, StagedDecision, StagedFlags, ScoresOf, SignPassport, SignChallenge, RuleData, WellFormed, Rewrite;
    var ts := TriggeredFor(rt, plugin, request, verified);
    forall i | 0 <= i < |ts| ensures WellFormed(Obj(ts[i].payload)) {
      assert ts[i] in plugin.rules;
    }
    hide Triggered, ActionablePayload;
    PayloadValue(request, ts, key);
  }

  // ---------- policy labels ----------

  /** Unchanged labels mean an unchanged name and version, for names without "@". */
  lemma LabelsExactly(p: Plugin, q: Plugin)
    requires '@' !in p.name && '@' !in q.name
    ensures p.VersionLabel() == q.VersionLabel() <==> p.name == q.name && p.version == q.version
  {
    if p.VersionLabel() == q.VersionLabel() {
      var text := p.VersionLabel();
      assert text == q.name + "@" + q.version;
      assert text[|p.name|] == '@' && text[|q.name|] == '@';
      assert forall i :: 0 <= i < |p.name| ==> text[i] == p.name[i];
      assert forall i :: 0 <= i < |q.name| ==> text[i] == q.name[i];
      assert |p.name| == |q.name|;
      assert text[..|p.name|] == p.name && text[..|q.name|] == q.name;
      assert text[|p.name| + 1..] == p.version && text[|q.name| + 1..] == q.version;
    }
  }
}
