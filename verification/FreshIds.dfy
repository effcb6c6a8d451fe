/** Ids: the replay cache only ever holds ids AXG has drawn, so a freshly drawn one is never refused. */
module FreshIds {
  import opened Results
  import opened JsonValues
  import opened Rules
  import opened Tokens
  import opened SignedContext
  import opened Engine
  import opened EngineProperties
  import opened Approvals
  import opened Sdk
  import opened Protocol
  import opened Gateway
  import opened Replay
  import opened SingleUse

  ghost predicate IdDrawn(s: State, token: Token) {
    token.claims.jti in s.ids && token.claims.jti != ""
  }

  ghost predicate IdsKnown(s: State) {
    && (forall jti :: jti in s.seen ==> jti in s.ids)
    && (forall t :: Issued(s.trace, t) ==> IdDrawn(s, t))
  }

  lemma IssuedAppend(trace: seq<Event>, e: Event, token: Token)
    ensures Issued(trace + [e], token) <==> Issued(trace, token) || Issues(e, token)
  {
    var t := trace + [e];
    if Issued(t, token) {
      var i :| 0 <= i < |t| && Issues(t[i], token);
      assert i < |trace| ==> Issues(trace[i], token);
    }
    if Issued(trace, token) {
      var i :| 0 <= i < |trace| && Issues(trace[i], token);
      assert Issues(t[i], token);
    }
    if Issues(e, token) {
      assert Issues(t[|trace|], token);
    }
  }

  lemma DecisionDrawsId(rt: Runtime, h: Hash, d: Event, token: Token)
    requires d.Decided? && Evaluation(rt, h, d.plugin, d.request, d.caller, d.verified, d.signer) == Some(d.response)
    requires Issues(d, token)
    ensures token.claims.jti == d.signer.id
  {
    hide Triggered, RuleData, StagedDecision, StagedFlags, ActionablePayload, ScoresOf, Raises, HashPayload,
         ApproverRole;
  }

  // ---------- what one step issues ----------

  /** A token of the step's own: drawn by a decision, or reissuing the id of a ticket AXG issued. */
  ghost predicate NewToken(s: State, step: Step, ids: set<string>, token: Token) {
    || (step.Decide? && token.claims.jti == step.id && step.id in ids)
    || (step.SubmitApproval? && token.claims.jti == step.approval.ticket.claims.jti
        && step.approval.ticket.typ == APPROVAL_TICKET_TYP && IdDrawn(s, step.approval.ticket)
        && Issued(s.trace, step.approval.ticket))
  }

  lemma DecideIssues(rt: Runtime, h: Hash, s: State, step: Step, token: Token)
    requires step.Decide? && Issued(Next(rt, h, s, step).trace, token)
    ensures Issued(s.trace, token) || NewToken(s, step, Next(rt, h, s, step).ids, token)
  {
    hide Evaluation, Issued;
    var plugin, signer := PolicyFor(s, step.request), Signing(s, step.usable, step.id);
    var r := Evaluation(rt, h, plugin, step.request, step.caller, step.verified, signer);
    if r.Some? {
      var e := Decided(s.now, step.request, step.caller, plugin, step.verified, signer, r.value);
      IssuedAppend(s.trace, e, token);
      if Issues(e, token) {
        DecisionDrawsId(rt, h, e, token);
      }
    }
  }

  lemma SubmitIssues(rt: Runtime, h: Hash, s: State, step: Step, token: Token)
    requires Inv(rt, h, s) && step.SubmitApproval? && Enabled(rt, h, s, step) && IdsKnown(s)
    requires Issued(Next(rt, h, s, step).trace, token)
    ensures Issued(s.trace, token) || NewToken(s, step, Next(rt, h, s, step).ids, token)
  {
    hide Submit, Inv, Issued, Enabled, Decodes, Approves;
    var approval := step.approval;
    var signer := Signing(s, step.usable, approval.ticket.claims.jti);
    var r := Submit(h, approval, step.submitter, s.plugins, s.retired, signer);
    if r.Ok? {
      ApprovedTicketIssued(rt, h, s, step);
      SubmitExactly(h, approval, step.submitter, s.plugins, s.retired, signer);
      var e := Submitted(s.now, approval, step.submitter, s.plugins, s.retired, signer, r.value);
      IssuedAppend(s.trace, e, token);
    }
  }

  lemma CallIssues(rt: Runtime, h: Hash, s: State, step: Step, token: Token)
    requires step.Call?
    ensures Issued(Next(rt, h, s, step).trace, token) <==> Issued(s.trace, token)
  {
    hide Issued, VerifyCall;
    var r := VerifyCall(h, step.executor, step.call, s.now, s.seen).result;
    IssuedAppend(s.trace, Called(s.now, step.executor, step.call, r), token);
  }

  lemma StepIssues(rt: Runtime, h: Hash, s: State, step: Step, token: Token)
    requires Inv(rt, h, s) && Enabled(rt, h, s, step) && IdsKnown(s) && Issued(Next(rt, h, s, step).trace, token)
    ensures Issued(s.trace, token) || NewToken(s, step, Next(rt, h, s, step).ids, token)
  {
    hide Inv, Enabled, IdsKnown, Issued, NewToken;
    match step
    case Decide(_, _, _, _, _) => DecideIssues(rt, h, s, step, token);
    case SubmitApproval(_, _, _) => SubmitIssues(rt, h, s, step, token);
    case Call(_, _) => CallIssues(rt, h, s, step, token);
    case _ =>
  }

  lemma IdsGrow(rt: Runtime, h: Hash, s: State, step: Step)
    ensures s.ids <= Next(rt, h, s, step).ids
    ensures !step.Call? ==> Next(rt, h, s, step).seen == s.seen
  {
    hide Evaluation, Submit, VerifyCall;
  }

  // ---------- drawn ids ----------

  lemma StepKeepsIdsKnown(rt: Runtime, h: Hash, s: State, step: Step)
    requires Inv(rt, h, s) && Enabled(rt, h, s, step) && IdsKnown(s)
    ensures IdsKnown(Next(rt, h, s, step))
  {
    hide Inv, Next, Issued;
    var s' := Next(rt, h, s, step);
    IdsGrow(rt, h, s, step);
    forall t | Issued(s'.trace, t) ensures IdDrawn(s', t) {
      StepIssues(rt, h, s, step, t);
    }
    if step.Call? {
      CallSeesIssued(rt, h, s, step);
    }
  }

  lemma ApprovedTicketIssued(rt: Runtime, h: Hash, s: State, step: Step)
    requires Inv(rt, h, s) && step.SubmitApproval? && Enabled(rt, h, s, step)
    requires Submit(h, step.approval, step.submitter, s.plugins, s.retired,
                    Signing(s, step.usable, step.approval.ticket.claims.jti)).Ok?
    ensures Issued(s.trace, step.approval.ticket)
  {
    AcceptedTicketIssued(h, s, step);
  }

  /** A call stores at most the id of a Passport AXG issued. */
  lemma CallSeesIssued(rt: Runtime, h: Hash, s: State, step: Step)
    requires step.Call? && Enabled(rt, h, s, step) && IdsKnown(s)
    ensures forall jti :: jti in Next(rt, h, s, step).seen ==> jti in s.ids
  {
    SpentExactly(h, step.executor, step.call, s.now, s.seen);
    hide VerifyCall, Issued, HashPayload, ArgumentsAuthorized;
  }

  lemma {:induction false} RunsKeepIdsKnown(rt: Runtime, h: Hash, s: State, steps: seq<Step>)
    requires Inv(rt, h, s) && IdsKnown(s) && Legal(rt, h, s, steps)
    ensures IdsKnown(After(rt, h, s, steps))
    decreases |steps|
  {
    hide Inv, Enabled, Next, IdsKnown;
    if steps != [] {
      StepKeepsInv(rt, h, s, steps[0]);
      StepKeepsIdsKnown(rt, h, s, steps[0]);
      RunsKeepIdsKnown(rt, h, Next(rt, h, s, steps[0]), steps[1..]);
    }
  }

  // ---------- the Passport of one id ----------

  /** The token is the only one AXG issued under its id, and no approval can reissue it. */
  ghost predicate OnlyToken(s: State, token: Token) {
    && token.claims.jti in s.ids && token.typ != APPROVAL_TICKET_TYP
    && forall t :: Issued(s.trace, t) && t.claims.jti == token.claims.jti ==> t == token
  }

  lemma StepKeepsOnlyToken(rt: Runtime, h: Hash, s: State, step: Step, token: Token)
    requires Inv(rt, h, s) && Enabled(rt, h, s, step) && OnlyToken(s, token) && IdsKnown(s)
    ensures OnlyToken(Next(rt, h, s, step), token)
  {
    hide Inv, Next, Issued, IdsKnown;
    var s' := Next(rt, h, s, step);
    IdsGrow(rt, h, s, step);
    forall t | Issued(s'.trace, t) && t.claims.jti == token.claims.jti ensures t == token {
      StepIssues(rt, h, s, step, t);
    }
  }

  lemma StepExtends(rt: Runtime, h: Hash, s: State, step: Step)
    ensures s.trace <= Next(rt, h, s, step).trace
  {
    hide Evaluation, Submit, VerifyCall;
  }

  lemma {:induction false} RunsKeepOnlyToken(rt: Runtime, h: Hash, s: State, steps: seq<Step>, token: Token)
    requires Inv(rt, h, s) && IdsKnown(s) && OnlyToken(s, token) && Legal(rt, h, s, steps)
    ensures OnlyToken(After(rt, h, s, steps), token)
    ensures s.trace <= After(rt, h, s, steps).trace
    decreases |steps|
  {
    hide Inv, Enabled, Next, IdsKnown, OnlyToken;
    if steps != [] {
      StepKeepsInv(rt, h, s, steps[0]);
      StepKeepsIdsKnown(rt, h, s, steps[0]);
      StepKeepsOnlyToken(rt, h, s, steps[0], token);
      StepExtends(rt, h, s, steps[0]);
      RunsKeepOnlyToken(rt, h, Next(rt, h, s, steps[0]), steps[1..], token);
    }
  }

  /** After a decision with a fresh id, its Passport is the only token of that id. */
  lemma DecisionMakesOnlyToken(rt: Runtime, h: Hash, s: State, step: Step, r: Response)
    requires Inv(rt, h, s) && IdsKnown(s) && step.Decide? && Enabled(rt, h, s, step)
    requires Evaluation(rt, h, PolicyFor(s, step.request), step.request, step.caller, step.verified,
                        Signing(s, step.usable, step.id)) == Some(r)
    requires r.passport.Some? && r.passport.value.typ == PASSPORT_TYP && r.passport.value.claims.jti == step.id
    ensures OnlyToken(Next(rt, h, s, step), r.passport.value)
  {
    hide Evaluation, Inv, Issued;
    var signer := Signing(s, step.usable, step.id);
    var e := Decided(s.now, step.request, step.caller, PolicyFor(s, step.request), step.verified, signer, r);
    var s' := Next(rt, h, s, step);
    PassportExactly(rt, h, e.plugin, e.request, e.caller, e.verified, signer);
    forall t | Issued(s'.trace, t) && t.claims.jti == step.id ensures t == r.passport.value {
      IssuedAppend(s.trace, e, t);
    }
  }

  // ---------- completeness over runs ----------

  /** The Passport got past a Passport check in this part of the run. */
  ghost predicate SpentBetween(trace: seq<Event>, from: nat, token: Token) {
    exists i :: from <= i < |trace| && Spent(trace[i]) && trace[i].call.passport == Some(token)
  }

  /** While it lives, the only token of an id is held by the cache exactly when it was spent since it was issued. */
  lemma HeldExactly(rt: Runtime, h: Hash, s: State, from: nat, token: Token)
    requires Inv(rt, h, s) && OnlyToken(s, token) && s.now < token.claims.exp as real && from <= |s.trace|
    requires forall t :: Issued(s.trace[..from], t) ==> t.claims.jti != token.claims.jti
    ensures IsFresh(s.seen, s.now, token.claims.jti) <==> !SpentBetween(s.trace, from, token)
  {
    hide CacheOf, Lawful;
    CacheIsSpent(rt, h, s.trace, s.now, token.claims.jti);
    if SpentBetween(s.trace, from, token) {
      var i :| from <= i < |s.trace| && Spent(s.trace[i]) && s.trace[i].call.passport == Some(token);
      assert SpentLive(s.trace[i], token.claims.jti, s.now);
    }
    if SpentAndLive(s.trace, token.claims.jti, s.now) {
      var i :| 0 <= i < |s.trace| && SpentLive(s.trace[i], token.claims.jti, s.now);
      SpentIsIssued(rt, h, s, i);
      var t := s.trace[i].call.passport.value;
      IssuedInPrefix(s.trace, i, |s.trace|, t);
      if i < from {
        IssuedInPrefix(s.trace, i, from, t);
      }
    }
  }

  lemma SpentIsIssued(rt: Runtime, h: Hash, s: State, i: nat)
    requires Inv(rt, h, s) && i < |s.trace| && Spent(s.trace[i])
    ensures Issued(s.trace[..i], s.trace[i].call.passport.value)
  {
    hide CacheOf, Issued, VerifyCall;
    assert Lawful(rt, h, s.trace[..i], s.trace[i]);
  }

  lemma IssuedInPrefix(trace: seq<Event>, i: nat, j: nat, token: Token)
    requires i <= j <= |trace| && Issued(trace[..i], token)
    ensures Issued(trace[..j], token) && Issued(trace, token)
  {
    var k :| 0 <= k < |trace[..i]| && Issues(trace[..i][k], token);
    assert Issues(trace[..j][k], token);
    assert Issues(trace[k], token);
  }

  /** The gateway forwarded the call on AXG's decision in state s. */
  ghost predicate ForwardsIn(rt: Runtime, h: Hash, s: State, config: Config, params: Params, who: Identity,
                             caller: Caller, verified: VerifiedContext, id: string, usable: bool, context: Json) {
    && params.passport.None? && config.pluginId in s.plugins
    && Enabled(rt, h, s, Decide(BuildRequest(config, params, who), caller, verified, id, usable))
    && Govern(config, params, Evaluation(rt, h, Some(s.plugins[config.pluginId]), BuildRequest(config, params, who),
                                         caller, verified, Signing(s, usable, id)), context, None).Forward?
  }

  /**
   On every run: the gateway decides and forwards a call in the state s of the run, any steps follow,
   and then, before its Passport expires, the call is made. It is accepted exactly when no rule and no
   category rewrite changed an argument and no call since got this Passport past its check.
   */
  lemma ForwardedCallAccepted(rt: Runtime, h: Hash, start: State, steps: seq<Step>, config: Config, params: Params,
                              who: Identity, caller: Caller, verified: VerifiedContext, id: string, usable: bool,
                              context: Json, between: seq<Step>)
    requires Initial(start) && Legal(rt, h, start, steps)
    requires var s := After(rt, h, start, steps);
      && ForwardsIn(rt, h, s, config, params, who, caller, verified, id, usable, context)
      && (var decided := Next(rt, h, s, Decide(BuildRequest(config, params, who), caller, verified, id, usable));
          && Legal(rt, h, decided, between)
          && s.now <= After(rt, h, decided, between).now < (s.now + PASSPORT_SECONDS as real).Floor as real)
    ensures var s := After(rt, h, start, steps);
      var request := BuildRequest(config, params, who);
      var plugin := s.plugins[config.pluginId];
      var out := Govern(config, params,
                        Evaluation(rt, h, Some(plugin), request, caller, verified, Signing(s, usable, id)), context,
                        None);
      var x := Executor(config.appId, who.tenantId, s.current, [AXG_ARGUMENT]);
      var decided := Next(rt, h, s, Decide(request, caller, verified, id, usable));
      var later := After(rt, h, decided, between);
      var called := Next(rt, h, later, Call(x, AsToolCall(out.params)));
      && out.params.passport.Some?
      && called.trace != [] && called.trace[|called.trace| - 1].Called?
      && (AcceptedCall(called.trace[|called.trace| - 1])
          <==> && ArgumentsSurvive(request, TriggeredFor(rt, plugin, request, verified), params.arguments)
               && !SpentBetween(later.trace, |s.trace|, out.params.passport.value))
  {
    hide Legal, After, Evaluation, VerifyCall, ArgumentsSurvive, Initial, Inv, IdsKnown, OnlyToken, SpentBetween,
         PassesChecks, Enabled, IsFresh, Issued;
    InitialHolds(rt, h, start);
    RunsKeepInv(rt, h, start, steps);
    RunsKeepIdsKnown(rt, h, start, steps);
    var s := After(rt, h, start, steps);
    var step := Decide(BuildRequest(config, params, who), caller, verified, id, usable);
    var decided := Next(rt, h, s, step);
    var later := After(rt, h, decided, between);
    var r := ForwardedResponse(rt, h, s, config, params, who, caller, verified, id, usable, context);
    StepKeepsInv(rt, h, s, step);
    StepKeepsIdsKnown(rt, h, s, step);
    StepExtends(rt, h, s, step);
    RunsKeepInv(rt, h, decided, between);
    DecisionMakesOnlyToken(rt, h, s, step, r);
    RunsKeepOnlyToken(rt, h, decided, between, r.passport.value);
    HeldSinceDecision(rt, h, s, decided, later, r.passport.value);
    CallNow(rt, h, s, config, params, who, caller, verified, id, usable, context, later.now, later.seen);
  }

  lemma ForwardedResponse(rt: Runtime, h: Hash, s: State, config: Config, params: Params, who: Identity, caller: Caller,
                          verified: VerifiedContext, id: string, usable: bool, context: Json) returns (r: Response)
    requires ForwardsIn(rt, h, s, config, params, who, caller, verified, id, usable, context)
    ensures Evaluation(rt, h, Some(s.plugins[config.pluginId]), BuildRequest(config, params, who), caller, verified,
                       Signing(s, usable, id)) == Some(r)
    ensures r.decision == Allow && r.passport.Some? && r.passport.value.typ == PASSPORT_TYP
    ensures id != "" && id !in s.ids && WellFormed(Obj(params.arguments))
    ensures r.passport.value.claims.jti == id && r.passport.value.claims.exp == (s.now + PASSPORT_SECONDS as real).Floor
  {
    var request := BuildRequest(config, params, who);
    var plugin := s.plugins[config.pluginId];
    r := Evaluation(rt, h, Some(plugin), request, caller, verified, Signing(s, usable, id)).value;
    hide Evaluation, WellFormed;
    PassportSays(rt, h, plugin, request, caller, verified, Signing(s, usable, id), r);
  }

  lemma PassportSays(rt: Runtime, h: Hash, plugin: Plugin, request: Request, caller: Caller, verified: VerifiedContext,
                     signer: Signer, r: Response)
    requires Evaluation(rt, h, Some(plugin), request, caller, verified, signer) == Some(r) && r.passport.Some?
    ensures var c := r.passport.value.claims;
      && r.passport.value.typ == PASSPORT_TYP && c.jti == signer.id
      && c.exp == (signer.now + PASSPORT_SECONDS as real).Floor
  {
    hide Triggered, RuleData, StagedDecision, StagedFlags, ActionablePayload, ScoresOf, Raises, HashPayload,
         ApproverRole, SignChallenge;
  }

  lemma HeldSinceDecision(rt: Runtime, h: Hash, s: State, decided: State, later: State, token: Token)
    requires IdsKnown(s) && token.claims.jti !in s.ids && s.trace <= decided.trace <= later.trace
    requires Inv(rt, h, later) && OnlyToken(later, token) && later.now < token.claims.exp as real
    ensures IsFresh(later.seen, later.now, token.claims.jti) <==> !SpentBetween(later.trace, |s.trace|, token)
  {
    hide Inv, OnlyToken, IsFresh, SpentBetween, Issued;
    assert later.trace[..|s.trace|] == s.trace;
    HeldExactly(rt, h, later, |s.trace|, token);
  }

  lemma InvPlugins(rt: Runtime, h: Hash, s: State, id: string)
    requires Inv(rt, h, s) && id in s.plugins
    ensures forall r :: r in s.plugins[id].rules ==> WellFormed(Obj(r.payload))
  {
  }

  /** Arguments that survive and a cache without the id are what the forwarded call needs. */
  lemma CallNow(rt: Runtime, h: Hash, s: State, config: Config, params: Params, who: Identity, caller: Caller,
                verified: VerifiedContext, id: string, usable: bool, context: Json, at: real, seen: Seen)
    requires Inv(rt, h, s) && ForwardsIn(rt, h, s, config, params, who, caller, verified, id, usable, context)
    requires s.now <= at < (s.now + PASSPORT_SECONDS as real).Floor as real
    ensures var request := BuildRequest(config, params, who);
      var plugin := s.plugins[config.pluginId];
      var out := Govern(config, params,
                        Evaluation(rt, h, Some(plugin), request, caller, verified, Signing(s, usable, id)), context,
                        None);
      var x := Executor(config.appId, who.tenantId, s.current, [AXG_ARGUMENT]);
      VerifyCall(h, x, AsToolCall(out.params), at, seen).result.Ok?
      <==> && ArgumentsSurvive(request, TriggeredFor(rt, plugin, request, verified), params.arguments)
           && IsFresh(seen, at, id)
  {
    hide Evaluation, VerifyCall, ArgumentsSurvive, PassesChecks, WellFormed, Inv, Enabled, InjectContext, IsFresh;
    var request := BuildRequest(config, params, who);
    var plugin := s.plugins[config.pluginId];
    var signer := Signing(s, usable, id);
    var out := Govern(config, params, Evaluation(rt, h, Some(plugin), request, caller, verified, signer), context,
                      None);
    var x := Executor(config.appId, who.tenantId, s.current, [AXG_ARGUMENT]);
    var r := ForwardedResponse(rt, h, s, config, params, who, caller, verified, id, usable, context);
    InvPlugins(rt, h, s, config.pluginId);
    GatewayCompleteness(rt, h, config, params, who, plugin, caller, verified, signer, context, at, seen);
  }

  lemma InitialHolds(rt: Runtime, h: Hash, s: State)
    requires Initial(s)
    ensures Inv(rt, h, s) && IdsKnown(s)
  {
  }
}
