/** `ApprovalService.submit`: exchanging an approved ticket for a Passport. */
module Approvals {
  import opened Results
  import opened JsonValues
  import opened Rules
  import opened Tokens
  import opened Engine

  const APPROVE_PERMISSION := "approvals:approve"
  const END_USER_ROLE := "end_user"

  type NonEmptyString = s: string | s != "" witness "-"

  datatype ApprovalRequest = ApprovalRequest(
    ticket: Token, payload: seq<Member>, approverId: NonEmptyString, approverRole: NonEmptyString, approve: bool)

  datatype ApprovalResponse = ApprovalResponse(executionId: string, passport: Option<Token>, payload: seq<Member>)

  datatype Rejection =
    | Unauthenticated | InvalidTicket | NotForApp | MayNotApprove | UnhashablePayload | PayloadDiffers | WrongRole
    | SelfApproval | NotTheUser | PolicyUnavailable | PolicyChanged | CannotSign

  function CheckCaller(ticket: Claims, caller: Caller): Option<Rejection> {
    if !caller.MayActFor(ticket.aud) then Some(NotForApp)
    else if APPROVE_PERMISSION !in caller.EffectivePermissions([APPROVE_PERMISSION]) then Some(MayNotApprove)
    else None
  }

  function CheckApprover(h: Hash, ticket: Claims, request: ApprovalRequest): Option<Rejection>
    requires ticket.ticket.Some?
  {
    var t := ticket.ticket.value;
    match HashPayload(h, request.payload)
    case None => Some(Rejection.UnhashablePayload)
    case Some(digest) =>
      if digest != ticket.payloadHash then Some(PayloadDiffers)
      else if request.approverRole != t.requiredRole then Some(WrongRole)
      else if t.agentId != "" && request.approverId == t.agentId then Some(SelfApproval)
      else if t.requiredRole == END_USER_ROLE && t.userId != "" && request.approverId != t.userId then Some(NotTheUser)
      else None
  }

  /** The policy that decided must still be the current one. */
  function CheckPolicy(ticket: Claims, plugins: map<string, Plugin>): Option<Rejection>
    requires ticket.ticket.Some?
  {
    var id := ticket.ticket.value.pluginId;
    if id !in plugins then Some(PolicyUnavailable)
    else if plugins[id].VersionLabel() != ticket.policy then Some(PolicyChanged)
    else None
  }

  function SignApproved(h: Hash, signer: Signer, ticket: Claims, request: ApprovalRequest,
                        caller: Caller): Option<Token> {
    SignDecision(h, signer, ticket.sub, ticket.aud, ticket.tenantId, ticket.actionType, request.payload,
                 caller.clientId,
                 ticket.policy, ticket.jti, Some(Approval(ticket.jti, request.approverId, request.approverRole)))
  }

  /** `submit`, over the current and retired keys and the policies the loader serves. */
  function Submit(h: Hash, request: ApprovalRequest, caller: Caller, plugins: map<string, Plugin>, retired: seq<Key>,
                  signer: Signer): Result<ApprovalResponse, Rejection>
  {
    if !caller.authenticated then Err(Unauthenticated)
    else
      match VerifyTicket(request.ticket, signer.key, retired, signer.now)
      case None => Err(InvalidTicket)
      case Some(ticket) =>
        var rejected := CheckCaller(ticket, caller);
        if rejected.Some? then Err(rejected.value)
        else
          var rejected := CheckApprover(h, ticket, request);
          if rejected.Some? then Err(rejected.value)
          else
            var rejected := CheckPolicy(ticket, plugins);
            if rejected.Some? then Err(rejected.value)
            else if !request.approve then Ok(ApprovalResponse(ticket.sub, None, []))
            else
              var passport := SignApproved(h, signer, ticket, request, caller);
              if passport.None? then Err(CannotSign)
              else Ok(ApprovalResponse(ticket.sub, passport, request.payload))
  }

  /** Everything an accepted approval has established about the ticket, the caller and the approver. */
  ghost predicate Approves(h: Hash, request: ApprovalRequest, caller: Caller, plugins: map<string, Plugin>) {
    var c := request.ticket.claims;
    && caller.authenticated && ("*" in caller.appIds || c.aud in caller.appIds)
    && (caller.permissions.None? || "*" in caller.permissions.value || "approvals:approve" in caller.permissions.value)
    && c.ticket.Some? && (c.decision == Confirm || c.decision == Suggest)
    && HashPayload(h, request.payload) == Some(c.payloadHash)
    && request.approverRole == c.ticket.value.requiredRole
    && request.approverId != c.ticket.value.agentId
    && (c.ticket.value.requiredRole == END_USER_ROLE && c.ticket.value.userId != ""
       ==> request.approverId == c.ticket.value.userId)
    && c.ticket.value.pluginId in plugins && plugins[c.ticket.value.pluginId].VersionLabel() == c.policy
  }

  /**
   `submit` answers exactly when the ticket is live under a known key, every check passes and, to approve,
   the key works.
   */
  lemma SubmitExactly(h: Hash, request: ApprovalRequest, caller: Caller, plugins: map<string, Plugin>,
                      retired: seq<Key>, signer: Signer)
    ensures var r := Submit(h, request, caller, plugins, retired, signer);
      var t := request.ticket;
      && (r.Ok? <==>
            && t.typ == APPROVAL_TICKET_TYP && (t.kid == signer.key || t.kid in retired)
            && Decodes(t, t.kid, None, signer.now) && Approves(h, request, caller, plugins)
            && (request.approve ==> signer.usable))
      && (r.Ok? ==> r.value.executionId == t.claims.sub && (r.value.passport.Some? <==> request.approve))
      && (r.Ok? ==> r.value.payload == if request.approve then request.payload else [])
      && (r.Ok? && request.approve
         ==> r.value.passport.value.claims.jti == (if t.claims.jti != "" then t.claims.jti else signer.id))
  {
    hide HashPayload, Decodes;
    assert APPROVE_PERMISSION in caller.EffectivePermissions([APPROVE_PERMISSION])
      <==> caller.MayGrant(APPROVE_PERMISSION);
  }

  /** The checks of a valid ticket's approval in their order, with the rejection each gives. */
  function ApprovalChecks(h: Hash, request: ApprovalRequest, caller: Caller, plugins: map<string, Plugin>,
                          usable: bool): seq<(bool, Rejection)>
    requires request.ticket.claims.ticket.Some?
  {
    var c := request.ticket.claims;
    var t := c.ticket.value;
    [ ("*" in caller.appIds || c.aud in caller.appIds, NotForApp),
      (caller.permissions.None? || "*" in caller.permissions.value || "approvals:approve" in caller.permissions.value,
       MayNotApprove),
      (HashPayload(h, request.payload).Some?, Rejection.UnhashablePayload),
      (HashPayload(h, request.payload) == Some(c.payloadHash), PayloadDiffers),
      (request.approverRole == t.requiredRole, WrongRole),
      (t.agentId != "" ==> request.approverId != t.agentId, SelfApproval),
      (t.requiredRole == "end_user" && t.userId != "" ==> request.approverId == t.userId, NotTheUser),
      (t.pluginId in plugins, PolicyUnavailable),
      (t.pluginId in plugins ==> plugins[t.pluginId].VersionLabel() == c.policy, PolicyChanged),
      (request.approve ==> usable, CannotSign) ]
  }

  /** Why an approval is rejected: first the caller's identity, then the ticket, then the first check that fails. */
  lemma RejectionExactly(h: Hash, request: ApprovalRequest, caller: Caller, plugins: map<string, Plugin>,
                         retired: seq<Key>, signer: Signer)
    ensures var r := Submit(h, request, caller, plugins, retired, signer);
      var c := request.ticket.claims;
      if !caller.authenticated then r == Err(Unauthenticated)
      else if request.ticket.typ != "axg-approval+jwt" || request.ticket.kid !in [signer.key] + retired
              || !Decodes(request.ticket, request.ticket.kid, None, signer.now) || c.ticket.None?
              || c.decision !in {Confirm, Suggest}
      then r == Err(InvalidTicket)
      else
        var failed := FirstFailure(ApprovalChecks(h, request, caller, plugins, signer.usable));
        if failed.Some? then r == Err(failed.value) else r.Ok?
  {
    hide FirstFailure, HashPayload, Decodes;
    if request.ticket.claims.ticket.Some? {
      assert APPROVE_PERMISSION in caller.EffectivePermissions([APPROVE_PERMISSION])
        <==> caller.MayGrant(APPROVE_PERMISSION);
      var checks := ApprovalChecks(h, request, caller, plugins, signer.usable);
      FirstRejection(checks);
    }
  }

  /** Which of ten checks fails first. */
  lemma FirstRejection(checks: seq<(bool, Rejection)>)
    requires |checks| == 10
    ensures FirstFailure(checks) ==
      if !checks[0].0 then Some(checks[0].1) else if !checks[1].0 then Some(checks[1].1)
      else if !checks[2].0 then Some(checks[2].1) else if !checks[3].0 then Some(checks[3].1)
      else if !checks[4].0 then Some(checks[4].1) else if !checks[5].0 then Some(checks[5].1)
      else if !checks[6].0 then Some(checks[6].1) else if !checks[7].0 then Some(checks[7].1)
      else if !checks[8].0 then Some(checks[8].1) else if !checks[9].0 then Some(checks[9].1) else None
  {
    hide FirstFailure;
    if k: nat :| k < |checks| && !checks[k].0 && forall j :: 0 <= j < k ==> checks[j].0 {
      FirstFailureExactly(checks, k);
    }
  }
}
