/** The way back from a refusal: offer, approval, repeated call. The converse of provenance. */
module ApprovalFlow {
  import opened Results
  import opened JsonValues
  import opened Canonical
  import opened Rules
  import opened Tokens
  import opened SignedContext
  import opened Engine
  import opened EngineProperties
  import opened Approvals
  import opened Replay
  import opened Sdk
  import opened Protocol
  import opened Gateway
  import opened Provenance
  import opened SingleUse

  /** The same JSON has the same hash, however its members and numbers were written. */
  lemma SamePayloadSameHash(h: Hash, p: seq<Member>, q: seq<Member>)
    requires WellFormed(Obj(p)) && WellFormed(Obj(q)) && PrintableMembers(p) && PrintableMembers(q)
    requires Equiv(Obj(p), Obj(q))
    ensures HashPayload(h, p).Some? && HashPayload(h, p) == HashPayload(h, q)
  {
    SameTextIffSameJson(Obj(p), Obj(q));
  }

  /** What a decision's ticket says. */
  lemma TicketSays(rt: Runtime, h: Hash, plugin: Plugin, request: Request, caller: Caller, verified: VerifiedContext,
                   signer: Signer, r: Response, ticket: Token)
    requires Evaluation(rt, h, Some(plugin), request, caller, verified, signer) == Some(r) && r.ticket == Some(ticket)
    ensures var c := ticket.claims;
      && ticket.typ == APPROVAL_TICKET_TYP && ticket.kid == signer.key && ticket.signedWith == signer.key
      && c.iss == ISSUER && c.nbf == c.iat == signer.now.Floor && c.exp == (signer.now + plugin.ticketTtl as real).Floor
      && c.aud == request.appId && c.tenantId == request.tenantId && c.actionType == request.actionType
      && c.policy == plugin.VersionLabel() && c.jti == signer.id
      && (c.decision == Confirm || c.decision == Suggest)
      && HashPayload(h, r.payload) == Some(c.payloadHash) && PrintableMembers(r.payload)
      && c.ticket == Some(TicketClaims(request.pluginId,
                                       ApproverRole(plugin, request, TriggeredFor(rt, plugin, request, verified)),
                                       request.userId, AgentId(request)))
  {
    hide Triggered, RuleData, StagedDecision, StagedFlags, ActionablePayload, ScoresOf, Raises, ApproverRole;
  }

  /** The approver the policy asks for: the right role, the right user for their own action, never the agent. */
  predicate MayApprove(plugin: Plugin, request: Request, triggered: seq<Rule>, approval: ApprovalRequest) {
    && approval.approverRole == ApproverRole(plugin, request, triggered)
    && approval.approverId != AgentId(request)
    && (approval.approverRole == END_USER_ROLE && request.userId != "" ==> approval.approverId == request.userId)
  }

  /**
   A live ticket with its payload is accepted exactly from the right caller and approver, under an
   unchanged policy label.
   */
  lemma ApprovalAcceptedExactly(rt: Runtime, h: Hash, plugin: Plugin, request: Request, caller: Caller,
                                verified: VerifiedContext, signer: Signer, r: Response, approval: ApprovalRequest,
                                submitter: Caller, plugins: map<string, Plugin>, retired: seq<Key>, later: Signer)
    requires Evaluation(rt, h, Some(plugin), request, caller, verified, signer) == Some(r)
      && r.ticket == Some(approval.ticket)
    requires WellFormed(Obj(r.payload)) && WellFormed(Obj(approval.payload)) && PrintableMembers(approval.payload)
    requires Equiv(Obj(r.payload), Obj(approval.payload))
    requires signer.key == later.key || signer.key in retired
    requires signer.now <= later.now < (signer.now + plugin.ticketTtl as real).Floor as real
    ensures Submit(h, approval, submitter, plugins, retired, later).Ok? <==>
      && submitter.authenticated && submitter.MayActFor(request.appId) && submitter.MayGrant(APPROVE_PERMISSION)
      && MayApprove(plugin, request, TriggeredFor(rt, plugin, request, verified), approval)
      && request.pluginId in plugins && plugins[request.pluginId].VersionLabel() == plugin.VersionLabel()
      && (approval.approve ==> later.usable)
  {
    hide Evaluation, Submit, ApproverRole, HashPayload, Equiv, WellFormed;
    TicketSays(rt, h, plugin, request, caller, verified, signer, r, approval.ticket);
    SamePayloadSameHash(h, r.payload, approval.payload);
    SubmitExactly(h, approval, submitter, plugins, retired, later);
  }

  /** An approval's Passport passes every check for five minutes, arguments aside. */
  lemma ApprovedPassportPasses(h: Hash, approval: ApprovalRequest, submitter: Caller, plugins: map<string, Plugin>,
                               retired: seq<Key>, signer: Signer, at: real, arguments: seq<Member>)
    requires approval.approve && approval.ticket.claims.jti != ""
    requires Submit(h, approval, submitter, plugins, retired, signer).Ok?
    requires signer.now <= at < (signer.now + PASSPORT_SECONDS as real).Floor as real
    ensures var c := approval.ticket.claims;
      var passport := Submit(h, approval, submitter, plugins, retired, signer).value.passport;
      var x := Executor(c.aud, c.tenantId, signer.key, [AXG_ARGUMENT]);
      && passport.Some? && passport.value.typ == PASSPORT_TYP && passport.value.kid == signer.key
      && passport.value.claims.jti == c.jti
      && (PassesChecks(h, x, ToolCall(c.actionType, arguments, passport, Some(Obj(approval.payload))), at)
          <==> ArgumentsAuthorized(arguments, approval.payload, [AXG_ARGUMENT]))
  {
    hide HashPayload, ArgumentsAuthorized;
    SubmitExactly(h, approval, submitter, plugins, retired, signer);
  }

  /** The refused call, repeated with the approval's Passport and payload. */
  function Repeated(params: Params, passport: Option<Token>, offer: Offer): Params {
    params.(passport := passport, authorized := Some(Obj(offer.payload)))
  }

  /** The offer of a refused call: its ticket and payload come from the decision. */
  ghost predicate OfferOf(rt: Runtime, h: Hash, config: Config, params: Params, who: Identity, plugin: Plugin,
                          caller: Caller, verified: VerifiedContext, signer: Signer, offer: Offer) {
    && params.passport.None? && signer.id != ""
    && var reply := Evaluation(rt, h, Some(plugin), BuildRequest(config, params, who), caller, verified, signer);
       reply.Some? && reply.value.ticket == Some(offer.ticket) && reply.value.payload == offer.payload
  }

  /** A refusal offers what the decision holds. */
  lemma RefusalOffers(rt: Runtime, h: Hash, config: Config, params: Params, who: Identity, plugin: Plugin,
                      caller: Caller, verified: VerifiedContext, signer: Signer, context: Json, offer: Offer)
    requires params.passport.None? && signer.id != ""
    ensures var out := Govern(config, params,
                              Evaluation(rt, h, Some(plugin), BuildRequest(config, params, who), caller, verified,
                                         signer), context, None);
      OfferOf(rt, h, config, params, who, plugin, caller, verified, signer, offer)
      <==> out.Refused? && out.offer == Some(offer)
  {
    var request := BuildRequest(config, params, who);
    var reply := Evaluation(rt, h, Some(plugin), request, caller, verified, signer);
    if reply.Some? {
      PassportExactly(rt, h, Some(plugin), request, caller, verified, signer);
    }
    hide Evaluation;
  }

  /** The repeated call passes the executor's checks exactly when no rewrite changed an argument. */
  lemma RepeatedPasses(rt: Runtime, h: Hash, config: Config, params: Params, who: Identity, plugin: Plugin,
                       caller: Caller, verified: VerifiedContext, signer: Signer, offer: Offer,
                       approval: ApprovalRequest, submitter: Caller, plugins: map<string, Plugin>,
                       retired: seq<Key>, later: Signer, at: real)
    requires WellFormed(Obj(params.arguments)) && forall r :: r in plugin.rules ==> WellFormed(Obj(r.payload))
    requires OfferOf(rt, h, config, params, who, plugin, caller, verified, signer, offer)
    requires approval.ticket == offer.ticket && approval.payload == offer.payload && approval.approve
    requires Submit(h, approval, submitter, plugins, retired, later).Ok?
    requires later.now <= at < (later.now + PASSPORT_SECONDS as real).Floor as real
    ensures var request := BuildRequest(config, params, who);
      var passport := Submit(h, approval, submitter, plugins, retired, later).value.passport;
      var x := Executor(config.appId, who.tenantId, later.key, [AXG_ARGUMENT]);
      && passport.Some? && passport.value.typ == PASSPORT_TYP && passport.value.kid == later.key
      && passport.value.claims.jti == offer.ticket.claims.jti
      && (PassesChecks(h, x, AsToolCall(Repeated(params, passport, offer)), at)
          <==> ArgumentsSurvive(request, TriggeredFor(rt, plugin, request, verified), params.arguments))
  {
    hide Evaluation, Submit, ArgumentsAuthorized, ArgumentsSurvive, WellFormed, ActionablePayload, PassesChecks,
         ApproverRole;
    var request := BuildRequest(config, params, who);
    var r := Evaluation(rt, h, Some(plugin), request, caller, verified, signer).value;
    TicketSays(rt, h, plugin, request, caller, verified, signer, r, offer.ticket);
    PayloadIs(rt, h, plugin, request, caller, verified, signer, r);
    ApprovedPassportPasses(h, approval, submitter, plugins, retired, later, at, params.arguments);
    ArgumentsAreDict(params.arguments);
    TriggeredDicts(rt, plugin, request, verified);
    SurvivalExactly(request, TriggeredFor(rt, plugin, request, verified));
  }

  /**
   A refused call comes through: when the offer in the refusal was approved, the repeated call passes
   the gateway unchanged, until the Passport expires, exactly when no triggered rule and no category
   rewrite changed an argument; the tool accepts it exactly when moreover the cache does not hold the
   ticket's id.
   */
  lemma ApprovalCompleteness(rt: Runtime, h: Hash, config: Config, params: Params, who: Identity, plugin: Plugin,
                             caller: Caller, verified: VerifiedContext, signer: Signer, context: Json, offer: Offer,
                             approval: ApprovalRequest, submitter: Caller, plugins: map<string, Plugin>,
                             retired: seq<Key>, later: Signer, s: State, gateway: Caller, seen: Seen)
    requires WellFormed(Obj(params.arguments)) && forall r :: r in plugin.rules ==> WellFormed(Obj(r.payload))
    requires OfferOf(rt, h, config, params, who, plugin, caller, verified, signer, offer)
    requires approval.ticket == offer.ticket && approval.payload == offer.payload && approval.approve
    requires Submit(h, approval, submitter, plugins, retired, later).Ok?
    requires later.now <= s.now < (later.now + PASSPORT_SECONDS as real).Floor as real
    requires (later.key == s.current || later.key in s.retired) && gateway.authenticated
      && gateway.MayActFor(config.appId)
    ensures var request := BuildRequest(config, params, who);
      var repeated := Repeated(params, Submit(h, approval, submitter, plugins, retired, later).value.passport, offer);
      var survive := ArgumentsSurvive(request, TriggeredFor(rt, plugin, request, verified), params.arguments);
      var x := Executor(config.appId, who.tenantId, later.key, [AXG_ARGUMENT]);
      && (Govern(config, repeated, None, context, IntrospectEndpoint(h, s, gateway, repeated)) == Forward(repeated)
         <==> survive)
      && (VerifyCall(h, x, AsToolCall(repeated), s.now, seen).result.Ok?
         <==> survive && IsFresh(seen, s.now, offer.ticket.claims.jti))
  {
    hide Evaluation, Submit, VerifyCall, ArgumentsSurvive, WellFormed, IntrospectEndpoint, PassesPassport, IsFresh,
         OfferOf, ArgumentsAuthorized;
    var repeated := Repeated(params, Submit(h, approval, submitter, plugins, retired, later).value.passport, offer);
    var x := Executor(config.appId, who.tenantId, later.key, [AXG_ARGUMENT]);
    RepeatedPasses(rt, h, config, params, who, plugin, caller, verified, signer, offer, approval, submitter, plugins,
                   retired, later, s.now);
    AcceptedExactly(h, x, AsToolCall(repeated), s.now, seen);
    if PassesChecks(h, x, AsToolCall(repeated), s.now) {
      ResendPasses(h, s, gateway, repeated, x);
    } else {
      OnlyArgumentsFail(rt, h, config, params, who, plugin, caller, verified, signer, offer, approval, submitter,
                        plugins, retired, later, s.now);
      ForwardsExactlyArguments(config, repeated, context, IntrospectEndpoint(h, s, gateway, repeated));
    }
  }

  /** When the repeated call fails the checks, its arguments are to blame. */
  lemma OnlyArgumentsFail(rt: Runtime, h: Hash, config: Config, params: Params, who: Identity, plugin: Plugin,
                          caller: Caller, verified: VerifiedContext, signer: Signer, offer: Offer,
                          approval: ApprovalRequest, submitter: Caller, plugins: map<string, Plugin>,
                          retired: seq<Key>, later: Signer, at: real)
    requires OfferOf(rt, h, config, params, who, plugin, caller, verified, signer, offer)
    requires approval.ticket == offer.ticket && approval.payload == offer.payload && approval.approve
    requires Submit(h, approval, submitter, plugins, retired, later).Ok?
    requires later.now <= at < (later.now + PASSPORT_SECONDS as real).Floor as real
    ensures var passport := Submit(h, approval, submitter, plugins, retired, later).value.passport;
      var x := Executor(config.appId, who.tenantId, later.key, [AXG_ARGUMENT]);
      PassesChecks(h, x, AsToolCall(Repeated(params, passport, offer)), at)
      <==> ArgumentsAuthorized(params.arguments, offer.payload, [AXG_ARGUMENT])
  {
    hide Evaluation, Submit, ArgumentsAuthorized, PassesChecks, ApproverRole;
    var request := BuildRequest(config, params, who);
    var r := Evaluation(rt, h, Some(plugin), request, caller, verified, signer).value;
    TicketSays(rt, h, plugin, request, caller, verified, signer, r, offer.ticket);
    ApprovedPassportPasses(h, approval, submitter, plugins, retired, later, at, params.arguments);
  }

  lemma ForwardsExactlyArguments(config: Config, params: Params, context: Json,
                                 introspected: Option<Result<Claims, Inactive>>)
    requires params.passport.Some? && params.authorized.Some? && params.authorized.value.Obj?
    requires !ArgumentsAuthorized(params.arguments, params.authorized.value.members, [AXG_ARGUMENT])
    ensures Govern(config, params, None, context, introspected) == InvalidPassport
  {
  }

  lemma PayloadIs(rt: Runtime, h: Hash, plugin: Plugin, request: Request, caller: Caller, verified: VerifiedContext,
                  signer: Signer, r: Response)
    requires Evaluation(rt, h, Some(plugin), request, caller, verified, signer) == Some(r)
    ensures r.payload == ActionablePayload(request, TriggeredFor(rt, plugin, request, verified))
  {
    hide Triggered, RuleData, StagedDecision, StagedFlags, ActionablePayload, ScoresOf, Raises, SignPassport,
         SignChallenge;
  }

  // ---------- over runs ----------

  /** A decision on this tool call, and an approval of the ticket and payload it offered. */
  ghost predicate OfferApproved(d: Event, a: Event, config: Config, params: Params, who: Identity) {
    && d.Decided? && d.plugin.Some? && d.request == BuildRequest(config, params, who) && params.passport.None?
    && a.Submitted? && a.approval.approve
    && d.response.ticket == Some(a.approval.ticket) && d.response.payload == a.approval.payload
  }

  /**
   On every run: a call was refused, its offer approved, any steps followed, and before the approval's
   Passport expires the repeated call is made. It is accepted exactly when no rule and no category rewrite
   changed an argument and no unexpired Passport of the ticket was spent.
   */
  lemma ApprovedCallAccepted(rt: Runtime, h: Hash, start: State, steps: seq<Step>, config: Config, params: Params,
                             who: Identity, j: nat, k: nat)
    requires Initial(start) && Legal(rt, h, start, steps)
    requires j < k < |After(rt, h, start, steps).trace|
    requires var s := After(rt, h, start, steps);
      && OfferApproved(s.trace[j], s.trace[k], config, params, who)
      && s.now < (s.trace[k].at + PASSPORT_SECONDS as real).Floor as real
    ensures var s := After(rt, h, start, steps);
      var d, a := s.trace[j], s.trace[k];
      var repeated := Repeated(params, a.answer.passport, Offer(a.approval.ticket, a.approval.payload));
      var x := Executor(config.appId, who.tenantId, a.signer.key, [AXG_ARGUMENT]);
      var called := Next(rt, h, s, Call(x, AsToolCall(repeated))).trace;
      && called != [] && called[|called| - 1].Called?
      && (AcceptedCall(called[|called| - 1])
          <==> && ArgumentsSurvive(d.request, TriggeredFor(rt, d.plugin.value, d.request, d.verified), params.arguments)
               && !SpentAndLive(s.trace, a.approval.ticket.claims.jti, s.now))
  {
    hide Legal, After, Initial, Lawful, CacheOf, VerifyCall, ArgumentsSurvive, SpentAndLive, PassesChecks, Evaluation,
         Submit, WellFormed;
    InitialInv(rt, h, start);
    RunsKeepInv(rt, h, start, steps);
    var s := After(rt, h, start, steps);
    var d, a := s.trace[j], s.trace[k];
    var offer := Offer(a.approval.ticket, a.approval.payload);
    var repeated := Repeated(params, a.answer.passport, offer);
    var x := Executor(config.appId, who.tenantId, a.signer.key, [AXG_ARGUMENT]);
    LawfulOffer(rt, h, s, config, params, who, j, k);
    RepeatedPasses(rt, h, config, params, who, d.plugin.value, d.caller, d.verified, d.signer, offer, a.approval,
                   a.submitter, a.plugins, a.retired, a.signer, s.now);
    AcceptedExactly(h, x, AsToolCall(repeated), s.now, s.seen);
    CacheIsSpent(rt, h, s.trace, s.now, a.approval.ticket.claims.jti);
  }

  /** What the invariant says about the two events. */
  lemma LawfulOffer(rt: Runtime, h: Hash, s: State, config: Config, params: Params, who: Identity, j: nat, k: nat)
    requires Inv(rt, h, s) && j < k < |s.trace| && OfferApproved(s.trace[j], s.trace[k], config, params, who)
    ensures var d, a := s.trace[j], s.trace[k];
      && OfferOf(rt, h, config, params, who, d.plugin.value, d.caller, d.verified, d.signer,
                 Offer(a.approval.ticket, a.approval.payload))
      && WellFormed(Obj(params.arguments)) && (forall r :: r in d.plugin.value.rules ==> WellFormed(Obj(r.payload)))
      && Submit(h, a.approval, a.submitter, a.plugins, a.retired, a.signer) == Ok(a.answer)
      && a.signer.now == a.at <= s.now
  {
    hide Evaluation, Submit, CacheOf, WellFormed, Issued;
    assert Lawful(rt, h, s.trace[..j], s.trace[j]) && Lawful(rt, h, s.trace[..k], s.trace[k]);
  }

  // ---------- calls that carry a Passport ----------

  /**
   In every run, the gateway forwards a call that carries a Passport exactly when its arguments match the
   payload it carries, the gateway may ask AXG about the Passport, and AXG issued it for this tool and a
   payload of this hash, under a key still known, and it has not expired. Then it forwards it unchanged.
   */
  lemma PassportForwardedExactly(rt: Runtime, h: Hash, start: State, steps: seq<Step>, gateway: Caller, config: Config,
                                 params: Params, decided: Option<Response>, context: Json)
    requires Initial(start) && Legal(rt, h, start, steps)
    requires params.passport.Some? && Presentable(After(rt, h, start, steps), params.passport.value)
    ensures var s := After(rt, h, start, steps);
      var token := params.passport.value;
      var out := Govern(config, params, decided, context, IntrospectEndpoint(h, s, gateway, params));
      && (out.Forward? ==> out.params == params)
      && (out.Forward? <==>
            && params.authorized.Some? && params.authorized.value.Obj?
            && ArgumentsAuthorized(params.arguments, params.authorized.value.members, ["axg"])
            && gateway.authenticated && ("*" in gateway.appIds || token.claims.aud in gateway.appIds)
            && token.kid in [s.current] + s.retired && s.now < token.claims.exp as real
            && exists i :: 0 <= i < |s.trace|
                 && AnswersFor(h, s.trace[i], token, Some(params.name), Some(params.authorized.value.members)))
  {
    hide Legal, After, HashPayload, AnswersFor, Presentable, ArgumentsAuthorized, FirstFailure, Introspect;
    var s := After(rt, h, start, steps);
    if params.authorized.Some? && params.authorized.value.Obj? {
      var payload := params.authorized.value.members;
      IntrospectionExactly(rt, h, start, steps, params.passport.value, Some(params.name), Some(payload));
      IntrospectExactly(h, params.passport.value, s.current, s.retired, s.now, Some(params.name), Some(payload));
    }
  }
}
