/** Where accepted calls come from, and how often a Passport works: theorems over every run. */
module Provenance {
  import opened Results
  import opened JsonValues
  import opened Rules
  import opened Tokens
  import opened Engine
  import opened EngineProperties
  import opened Approvals
  import opened Sdk
  import opened Protocol

  /** The same JSON, unless the two texts are a collision of the hash. */
  ghost predicate SamePayload(h: Hash, p: seq<Member>, q: seq<Member>) {
    PrintableMembers(p) && PrintableMembers(q) && (Equiv(Obj(p), Obj(q)) || Collision(h, p, q))
  }

  /** The decided payload holds every argument of the call, unless the hash collides on it and the presented one. */
  ghost predicate BindsArguments(h: Hash, payload: seq<Member>, call: ToolCall, ignored: seq<string>)
    requires call.authorized.Some? && call.authorized.value.Obj?
    requires SamePayload(h, payload, call.authorized.value.members)
  {
    ArgumentsBound(call.arguments, payload, ignored) || Collision(h, payload, call.authorized.value.members)
  }

  /**
   The decision was asked for by an authenticated caller of this app, for real, for this tool, tenant
   and payload, its payload holds the call's arguments, and the accepted claims name it and its policy.
   */
  ghost predicate DecidedFor(rt: Runtime, h: Hash, d: Event, x: Executor, call: ToolCall, claims: Claims) {
    && d.Decided? && d.plugin.Some?
    && Evaluation(rt, h, d.plugin, d.request, d.caller, d.verified, d.signer) == Some(d.response)
    && d.caller.authenticated && ("*" in d.caller.appIds || x.appId in d.caller.appIds) && !d.request.shadowMode
    && d.request.appId == x.appId && (x.tenantId == "" || d.request.tenantId == x.tenantId)
    && d.request.actionType == call.name
    && claims.sub == d.request.executionId && claims.policy == d.plugin.value.VersionLabel()
    && call.authorized.Some? && call.authorized.value.Obj?
    && SamePayload(h, d.response.payload, call.authorized.value.members)
    && BindsArguments(h, d.response.payload, call, x.ignored)
  }

  /** An ALLOW less than five minutes old. */
  ghost predicate AllowedBy(rt: Runtime, h: Hash, d: Event, c: Event) {
    && AcceptedCall(c) && DecidedFor(rt, h, d, c.executor, c.call, c.result.value)
    && d.response.decision == Allow && c.call.passport == d.response.passport
    && c.result.value.azp == d.caller.clientId && c.result.value.approval.None?
    && c.at < d.at + PASSPORT_SECONDS as real
  }

  /**
   A CONFIRM or SUGGEST whose ticket was approved, less than five minutes before the call, by the role
   the policy requires, not by the agent, under an unchanged policy label.
   */
  ghost predicate ApprovedBy(rt: Runtime, h: Hash, d: Event, a: Event, c: Event) {
    && AcceptedCall(c) && DecidedFor(rt, h, d, c.executor, c.call, c.result.value)
    && (d.response.decision == Confirm || d.response.decision == Suggest)
    && a.Submitted? && a.approval.approve && Some(a.approval.ticket) == d.response.ticket
    && c.call.passport == a.answer.passport && c.at < a.at + PASSPORT_SECONDS as real
    && a.at < d.at + d.plugin.value.ticketTtl as real
    && a.submitter.authenticated && ("*" in a.submitter.appIds || c.executor.appId in a.submitter.appIds)
    && (a.submitter.permissions.None? || "*" in a.submitter.permissions.value
        || "approvals:approve" in a.submitter.permissions.value)
    && SamePayload(h, d.response.payload, a.approval.payload)
    && c.result.value.azp == a.submitter.clientId && c.result.value.approval.Some?
    && c.result.value.approval.value.approverId == a.approval.approverId
    && c.result.value.approval.value.approverRole == a.approval.approverRole
    && a.approval.approverRole == ApproverRole(d.plugin.value, d.request, d.response.triggered)
    && (d.request.agent.Some? ==> a.approval.approverId != d.request.agent.value.id)
    && (a.approval.approverRole == END_USER_ROLE && d.request.userId != ""
       ==> a.approval.approverId == d.request.userId)
    && d.request.pluginId in a.plugins && a.plugins[d.request.pluginId].VersionLabel() == d.plugin.value.VersionLabel()
  }

  // ---------- claims of issued tokens ----------

  /** What a decision's own Passport or ticket says. */
  lemma IssuedClaims(rt: Runtime, h: Hash, d: Event, past: seq<Event>, token: Token)
    requires d.Decided? && Lawful(rt, h, past, d) && Issues(d, token)
    ensures var c := token.claims;
      && d.plugin.Some? && d.caller.authenticated && !d.request.shadowMode
      && c.aud == d.request.appId && c.tenantId == d.request.tenantId && c.actionType == d.request.actionType
      && HashPayload(h, d.response.payload) == Some(c.payloadHash)
      && c.sub == d.request.executionId && c.azp == d.caller.clientId && c.approval.None?
      && c.policy == d.plugin.value.VersionLabel() && c.decision == d.response.decision
      && (if c.ticket.None? then
            c.decision == Allow && d.response.passport == Some(token)
              && c.exp == (d.at + PASSPORT_SECONDS as real).Floor
          else
            && (c.decision == Confirm || c.decision == Suggest) && d.response.ticket == Some(token)
            && c.exp == (d.at + d.plugin.value.ticketTtl as real).Floor
            && c.ticket.value == TicketClaims(d.request.pluginId,
                 ApproverRole(d.plugin.value, d.request, d.response.triggered), d.request.userId, AgentId(d.request)))
  {
    hide Triggered, RuleData, StagedDecision, StagedFlags, ActionablePayload, ScoresOf, Raises, HashPayload,
         ApproverRole;
    PassportExactly(rt, h, d.plugin, d.request, d.caller, d.verified, d.signer);
  }

  /** The payload a lawful decision binds is a dict. */
  lemma DecidedPayloadWellFormed(rt: Runtime, h: Hash, d: Event, past: seq<Event>)
    requires d.Decided? && Lawful(rt, h, past, d) && d.plugin.Some?
    ensures WellFormed(Obj(d.response.payload))
  {
    var ts := TriggeredFor(rt, d.plugin.value, d.request, d.verified);
    assert DictPayloads(ts) by {
      forall i | 0 <= i < |ts| ensures WellFormed(Obj(ts[i].payload)) {
        assert ts[i] in d.plugin.value.rules;
      }
    }
    PayloadWellFormed(d.request, ts);
    hide ActionablePayload, WellFormed;
  }

  /** What an approval's Passport says. */
  lemma ApprovedClaims(rt: Runtime, h: Hash, a: Event, past: seq<Event>, token: Token)
    requires a.Submitted? && Lawful(rt, h, past, a) && Issues(a, token)
    ensures var c, t := token.claims, a.approval.ticket.claims;
      && a.approval.approve && Approves(h, a.approval, a.submitter, a.plugins) && Issued(past, a.approval.ticket)
      && Decodes(a.approval.ticket, a.approval.ticket.kid, None, a.at)
      && c.sub == t.sub && c.policy == t.policy && c.azp == a.submitter.clientId
      && c.approval == Some(Approval(t.jti, a.approval.approverId, a.approval.approverRole))
      && c.ticket.None? && c.aud == t.aud && c.tenantId == t.tenantId && c.actionType == t.actionType
      && HashPayload(h, a.approval.payload) == Some(c.payloadHash)
      && (t.jti != "" ==> c.jti == t.jti) && c.exp == (a.at + PASSPORT_SECONDS as real).Floor
  {
    hide HashPayload;
    SubmitExactly(h, a.approval, a.submitter, a.plugins, a.retired, a.signer);
  }

  lemma SameHash(h: Hash, p: seq<Member>, q: seq<Member>, digest: string)
    requires WellFormed(Obj(p)) && WellFormed(Obj(q))
    requires HashPayload(h, p) == Some(digest) && HashPayload(h, q) == Some(digest)
    ensures SamePayload(h, p, q)
  {
    SameHashSamePayload(h, p, q);
  }

  /** What the executor matched against the presented payload, the decided one holds. */
  lemma BoundByDecision(h: Hash, payload: seq<Member>, call: ToolCall, ignored: seq<string>)
    requires call.authorized.Some? && call.authorized.value.Obj? && WellFormed(call.authorized.value)
      && WellFormed(Obj(payload))
    requires SamePayload(h, payload, call.authorized.value.members)
    requires ArgumentsAuthorized(call.arguments, call.authorized.value.members, ignored)
    ensures BindsArguments(h, payload, call, ignored)
  {
    hide Equiv, ArgumentsAuthorized, ArgumentsBound, Collision, PrintableMembers;
    if Equiv(Obj(payload), call.authorized.value) {
      AuthorizedIsBound(call.arguments, payload, call.authorized.value.members, ignored);
    }
  }

  /**
   The decided payload holds the arguments of an accepted call as they are, for Python's `==`, exactly when
   no argument differs from it in an integer that is no double.
   */
  lemma UnchangedExactly(rt: Runtime, h: Hash, d: Event, x: Executor, call: ToolCall, claims: Claims)
    requires DecidedFor(rt, h, d, x, call, claims)
    requires !Collision(h, d.response.payload, call.authorized.value.members)
    requires WellFormed(Obj(call.arguments)) && WellFormed(Obj(d.response.payload))
    ensures ArgumentsAuthorized(call.arguments, d.response.payload, x.ignored) <==>
      forall i :: 0 <= i < |call.arguments| && call.arguments[i].key !in x.ignored ==>
        AlignsWith(call.arguments[i], d.response.payload)
  {
    hide ArgumentsBound, ArgumentsAuthorized, AlignsWith, Evaluation, WellFormed, Collision;
    BoundExactly(call.arguments, d.response.payload, x.ignored);
  }

  // ---------- provenance ----------

  lemma FromDecision(rt: Runtime, h: Hash, trace: seq<Event>, j: nat, i: nat)
    requires j < i < |trace| && Lawful(rt, h, trace[..j], trace[j]) && Lawful(rt, h, trace[..i], trace[i])
    requires AcceptedCall(trace[i]) && trace[j].Decided? && Issues(trace[j], trace[i].call.passport.value)
    ensures AllowedBy(rt, h, trace[j], trace[i])
  {
    var d, c := trace[j], trace[i];
    IssuedClaims(rt, h, d, trace[..j], c.call.passport.value);
    DecidedPayloadWellFormed(rt, h, d, trace[..j]);
    SameHash(h, d.response.payload, c.call.authorized.value.members, c.result.value.payloadHash);
    BoundByDecision(h, d.response.payload, c.call, c.executor.ignored);
  }

  lemma FromApproval(rt: Runtime, h: Hash, trace: seq<Event>, j: nat, k: nat, i: nat)
    requires j < k < i < |trace|
    requires Lawful(rt, h, trace[..j], trace[j]) && Lawful(rt, h, trace[..k], trace[k])
      && Lawful(rt, h, trace[..i], trace[i])
    requires AcceptedCall(trace[i]) && trace[k].Submitted? && Issues(trace[k], trace[i].call.passport.value)
    requires trace[j].Decided? && Issues(trace[j], trace[k].approval.ticket)
    ensures ApprovedBy(rt, h, trace[j], trace[k], trace[i])
  {
    var d, a, c := trace[j], trace[k], trace[i];
    hide HashPayload, Evaluation, ApproverRole, SamePayload;
    ApprovedClaims(rt, h, a, trace[..k], c.call.passport.value);
    IssuedClaims(rt, h, d, trace[..j], a.approval.ticket);
    DecidedPayloadWellFormed(rt, h, d, trace[..j]);
    SameHash(h, d.response.payload, c.call.authorized.value.members, c.result.value.payloadHash);
    BoundByDecision(h, d.response.payload, c.call, c.executor.ignored);
    SameHash(h, d.response.payload, a.approval.payload, c.result.value.payloadHash);
  }

  /**
   Every call any run accepts traces back to a decision whose payload holds its arguments: an ALLOW, or
   a CONFIRM or SUGGEST whose ticket was duly approved in between.
   */
  lemma Provenance(rt: Runtime, h: Hash, start: State, steps: seq<Step>, i: nat)
    requires Initial(start) && Legal(rt, h, start, steps)
    requires i < |After(rt, h, start, steps).trace| && AcceptedCall(After(rt, h, start, steps).trace[i])
    ensures var trace := After(rt, h, start, steps).trace;
      || (exists j :: 0 <= j < i && AllowedBy(rt, h, trace[j], trace[i]))
      || (exists j, k :: 0 <= j < k < i && ApprovedBy(rt, h, trace[j], trace[k], trace[i]))
  {
    hide AllowedBy, ApprovedBy, Lawful;
    RunsKeepInv(rt, h, start, steps);
    var s := After(rt, h, start, steps);
    Trace(rt, h, s.trace, i);
  }

  lemma Trace(rt: Runtime, h: Hash, trace: seq<Event>, i: nat)
    requires forall n :: 0 <= n < |trace| ==> Lawful(rt, h, trace[..n], trace[n])
    requires i < |trace| && AcceptedCall(trace[i])
    ensures || (exists j :: 0 <= j < i && AllowedBy(rt, h, trace[j], trace[i]))
            || (exists j, k :: 0 <= j < k < i && ApprovedBy(rt, h, trace[j], trace[k], trace[i]))
  {
    hide AllowedBy, ApprovedBy, Evaluation, Submit, Decodes, HashPayload, ArgumentsAuthorized;
    assert Lawful(rt, h, trace[..i], trace[i]);
    var token := trace[i].call.passport.value;
    var k :| 0 <= k < |trace[..i]| && Issues(trace[..i][k], token);
    assert Lawful(rt, h, trace[..k], trace[k]);
    if trace[k].Decided? {
      FromDecision(rt, h, trace, k, i);
    } else {
      var ticket := trace[k].approval.ticket;
      ApprovedClaims(rt, h, trace[k], trace[..k], token);
      var j :| 0 <= j < |trace[..k]| && Issues(trace[..k][j], ticket);
      assert Lawful(rt, h, trace[..j], trace[j]);
      if trace[j].Submitted? {
        ApprovedClaims(rt, h, trace[j], trace[..j], ticket);
        assert false;
      }
      FromApproval(rt, h, trace, j, k, i);
    }
  }

  // ---------- introspection ----------

  /** AXG answered with the token as a Passport: for an ALLOW, or for an approval. */
  ghost predicate IssuesPassport(e: Event, token: Token) {
    || (e.Decided? && e.response.passport == Some(token) && e.response.decision == Allow)
    || (e.Submitted? && e.answer.passport == Some(token) && e.approval.approve)
  }

  /** The action that was decided or approved. */
  function ActionOf(e: Event): string
    requires e.Decided? || e.Submitted?
  {
    if e.Decided? then e.request.actionType else e.approval.ticket.claims.actionType
  }

  /** The payload that was decided or approved. */
  function PayloadOf(e: Event): seq<Member>
    requires e.Decided? || e.Submitted?
  {
    if e.Decided? then e.response.payload else e.approval.payload
  }

  /** The event's Passport answers for this action and payload, where they are asked for. */
  ghost predicate AnswersFor(h: Hash, e: Event, token: Token, actionType: Option<string>,
                             payload: Option<seq<Member>>)
  {
    && IssuesPassport(e, token)
    && (actionType.Some? ==> ActionOf(e) == actionType.value)
    && (payload.Some? ==> HashPayload(h, PayloadOf(e)) == HashPayload(h, payload.value))
  }

  /** What a Passport says, whichever way it was issued. */
  lemma PassportSays(rt: Runtime, h: Hash, past: seq<Event>, e: Event, token: Token)
    requires Lawful(rt, h, past, e) && (e.Decided? || e.Submitted?) && Issues(e, token)
    requires token.typ != APPROVAL_TICKET_TYP || IssuesPassport(e, token)
    ensures var c := token.claims;
      && IssuesPassport(e, token) && token.typ != APPROVAL_TICKET_TYP && token.signedWith == token.kid
      && c.iss == ISSUER && c.nbf == c.iat == e.at.Floor && c.decision == Allow && c.actionType == ActionOf(e)
      && HashPayload(h, PayloadOf(e)) == Some(c.payloadHash)
  {
    hide Triggered, RuleData, StagedDecision, StagedFlags, ActionablePayload, ScoresOf, Raises, HashPayload,
         ApproverRole;
    if e.Decided? {
      PassportExactly(rt, h, e.plugin, e.request, e.caller, e.verified, e.signer);
    } else {
      hide Evaluation;
      SubmitExactly(h, e.approval, e.submitter, e.plugins, e.retired, e.signer);
    }
  }

  /**
   In every run, AXG calls a token active for an action and a payload exactly when it issued the token as
   a Passport for that action and a payload of that hash, the key is still known, and it has not expired.
   */
  lemma IntrospectionExactly(rt: Runtime, h: Hash, start: State, steps: seq<Step>, token: Token,
                             actionType: Option<string>, payload: Option<seq<Member>>)
    requires Initial(start) && Legal(rt, h, start, steps) && Presentable(After(rt, h, start, steps), token)
    ensures var s := After(rt, h, start, steps);
      Introspect(h, token, s.current, s.retired, s.now, actionType, payload).Ok? <==>
        && token.kid in [s.current] + s.retired && s.now < token.claims.exp as real
        && exists i :: 0 <= i < |s.trace| && AnswersFor(h, s.trace[i], token, actionType, payload)
  {
    hide Legal, After, Evaluation, Submit, HashPayload, AnswersFor, Lawful, FirstFailure;
    RunsKeepInv(rt, h, start, steps);
    var s := After(rt, h, start, steps);
    IntrospectExactly(h, token, s.current, s.retired, s.now, actionType, payload);
    var checks := IntrospectionChecks(h, token, s.current, s.retired, s.now, actionType, payload);
    if Introspect(h, token, s.current, s.retired, s.now, actionType, payload).Ok? {
      assert checks[0].0 && checks[1].0 && checks[2].0 && checks[3].0;
      assert Issued(s.trace, token);
      var i :| 0 <= i < |s.trace| && Issues(s.trace[i], token);
      ActiveAnswers(rt, h, s, i, token, actionType, payload);
    }
    if token.kid in [s.current] + s.retired && s.now < token.claims.exp as real {
      forall i | 0 <= i < |s.trace| && AnswersFor(h, s.trace[i], token, actionType, payload)
        ensures Introspect(h, token, s.current, s.retired, s.now, actionType, payload).Ok?
      {
        AnswerIsActive(rt, h, s, i, token, actionType, payload);
      }
    }
  }

  lemma ActiveAnswers(rt: Runtime, h: Hash, s: State, i: nat, token: Token, actionType: Option<string>,
                      payload: Option<seq<Member>>)
    requires i < |s.trace| && Lawful(rt, h, s.trace[..i], s.trace[i]) && Issues(s.trace[i], token)
    requires Introspect(h, token, s.current, s.retired, s.now, actionType, payload).Ok?
    ensures AnswersFor(h, s.trace[i], token, actionType, payload)
  {
    hide Lawful, HashPayload, Issues;
    assert s.trace[i].Decided? || s.trace[i].Submitted? by { IssuedBy(s.trace[i], token); }
    PassportSays(rt, h, s.trace[..i], s.trace[i], token);
  }

  lemma IssuedBy(e: Event, token: Token)
    requires Issues(e, token)
    ensures e.Decided? || e.Submitted?
  {
  }

  lemma AnswerIsActive(rt: Runtime, h: Hash, s: State, i: nat, token: Token, actionType: Option<string>,
                       payload: Option<seq<Member>>)
    requires i < |s.trace| && Lawful(rt, h, s.trace[..i], s.trace[i]) && s.trace[i].at <= s.now
    requires AnswersFor(h, s.trace[i], token, actionType, payload)
    requires token.kid in [s.current] + s.retired && s.now < token.claims.exp as real
    ensures Introspect(h, token, s.current, s.retired, s.now, actionType, payload).Ok?
  {
    hide Lawful, HashPayload;
    PassportSays(rt, h, s.trace[..i], s.trace[i], token);
  }

}
