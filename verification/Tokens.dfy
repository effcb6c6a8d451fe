/**
 Passports and approval tickets. Signing is symbolic: a token says which key signed it, and a key is
 named by its thumbprint (`kid`). Hashing is an arbitrary function on texts; nothing assumes that it
 has no collisions.
 */
module Tokens {
  import opened Results
  import opened JsonValues
  import opened Canonical
  import opened Rules

  type Key = nat

  type Hash = string -> string

  const ISSUER := "axg-engine"
  const PASSPORT_TYP := "JWT"
  const APPROVAL_TICKET_TYP := "axg-approval+jwt"
  const PASSPORT_SECONDS := 300

  datatype Approval = Approval(ticketId: string, approverId: string, approverRole: string)

  /** The claims only a ticket carries; the empty string stands for an absent user or agent. */
  datatype TicketClaims = TicketClaims(pluginId: string, requiredRole: string, userId: string, agentId: string)

  datatype Claims = Claims(
    iss: string, sub: string, aud: string, azp: string, iat: int, nbf: int, exp: int, jti: string,
    tenantId: string, decision: Decision, actionType: string, policy: string, payloadHash: string,
    approval: Option<Approval>, ticket: Option<TicketClaims>)

  datatype Token = Token(kid: Key, typ: string, claims: Claims, signedWith: Key)

  // ---------- payload hashes ----------

  /** `hash_payload`; None when the payload has no canonical text. */
  function HashPayload(h: Hash, payload: seq<Member>): Option<string> {
    match CanonicalJson(Obj(payload))
    case Ok(text) => Some(h(text))
    case Err(_) => None
  }

  /** Two different texts with one hash. */
  predicate Collision(h: Hash, p: seq<Member>, q: seq<Member>)
    requires PrintableMembers(p) && PrintableMembers(q)
  {
    Print(Obj(p)) != Print(Obj(q)) && h(Print(Obj(p))) == h(Print(Obj(q)))
  }

  /** Payloads with one hash are the same JSON, or their two texts are a collision of the hash. */
  lemma SameHashSamePayload(h: Hash, p: seq<Member>, q: seq<Member>)
    requires WellFormed(Obj(p)) && WellFormed(Obj(q))
    requires HashPayload(h, p).Some? && HashPayload(h, p) == HashPayload(h, q)
    ensures PrintableMembers(p) && PrintableMembers(q)
    ensures Equiv(Obj(p), Obj(q)) || Collision(h, p, q)
  {
    SameTextIffSameJson(Obj(p), Obj(q));
  }

  // ---------- issuing ----------

  /** What signing depends on besides the claims: the current key, whether it works, clock and fresh id. */
  datatype Signer = Signer(key: Key, usable: bool, now: real, id: string)

  /** `sign_decision`: raises when the payload cannot be hashed or the key cannot sign. */
  function SignDecision(h: Hash, signer: Signer, executionId: string, appId: string, tenantId: string,
                        actionType: string, payload: seq<Member>, clientId: string, policy: string,
                        jti: string, approval: Option<Approval>): Option<Token>
  {
    match HashPayload(h, payload)
    case None => None
    case Some(digest) =>
      if !signer.usable then None
      else
        var iat := signer.now.Floor;
        Some(Token(signer.key, PASSPORT_TYP, Claims(
          ISSUER, executionId, appId, clientId, iat, iat, (signer.now + PASSPORT_SECONDS as real).Floor,
          if jti != "" then jti else signer.id, tenantId, Allow, actionType, policy, digest, approval, None),
          signer.key))
  }

  /** `sign_approval_ticket`. */
  function SignTicket(h: Hash, signer: Signer, executionId: string, appId: string, tenantId: string,
                      policy: string, decision: Decision, actionType: string, payload: seq<Member>,
                      clientId: string, ticket: TicketClaims, ttlSeconds: nat): Option<Token>
  {
    match HashPayload(h, payload)
    case None => None
    case Some(digest) =>
      if !signer.usable then None
      else
        var iat := signer.now.Floor;
        Some(Token(signer.key, APPROVAL_TICKET_TYP, Claims(
          ISSUER, executionId, appId, clientId, iat, iat, (signer.now + ttlSeconds as real).Floor,
          signer.id, tenantId, decision, actionType, policy, digest, None, Some(ticket)), signer.key))
  }

  // ---------- verifying ----------

  /** `jwt.decode`: signature, validity window and issuer; the audience is checked when given. */
  predicate Decodes(token: Token, key: Key, audience: Option<string>, now: real) {
    var c := token.claims;
    && token.signedWith == key
    && c.iss == ISSUER
    && (audience.Some? ==> c.aud == audience.value)
    && c.nbf as real <= now && c.iat as real <= now && now < c.exp as real
  }

  /** `KeyManager.verification_key`: the current or a retired key with this thumbprint. */
  function VerificationKey(current: Key, retired: seq<Key>, kid: Key): Option<Key> {
    if kid == current || kid in retired then Some(kid) else None
  }

  /** `verify_approval_ticket`; None when it raises ApprovalTicketError. */
  function VerifyTicket(token: Token, current: Key, retired: seq<Key>, now: real): Option<Claims> {
    if token.typ != APPROVAL_TICKET_TYP then None
    else
      match VerificationKey(current, retired, token.kid)
      case None => None
      case Some(key) =>
        if Decodes(token, key, None, now) && token.claims.ticket.Some?
          && (token.claims.decision.Confirm? || token.claims.decision.Suggest?)
        then Some(token.claims)
        else None
  }

  datatype Inactive =
    | ApprovalTicket | UnknownKey | Expired | Invalid | NotAllow | OtherAction | OtherPayload | UnhashablePayload

  /** `introspect_passport`; a payload without a canonical text makes it raise. */
  function Introspect(h: Hash, token: Token, current: Key, retired: seq<Key>, now: real,
                      actionType: Option<string>, payload: Option<seq<Member>>): Result<Claims, Inactive>
  {
    if token.typ == APPROVAL_TICKET_TYP then Err(ApprovalTicket)
    else
      match VerificationKey(current, retired, token.kid)
      case None => Err(UnknownKey)
      case Some(key) =>
        var c := token.claims;
        if token.signedWith == key && c.nbf as real <= now && c.iat as real <= now && now >= c.exp as real then
          Err(Expired)
        else if !Decodes(token, key, None, now) then Err(Invalid)
        else if !c.decision.Allow? then Err(NotAllow)
        else if actionType.Some? && c.actionType != actionType.value then Err(OtherAction)
        else if payload.Some? && HashPayload(h, payload.value).None? then Err(UnhashablePayload)
        else if payload.Some? && HashPayload(h, payload.value) != Some(c.payloadHash) then Err(OtherPayload)
        else Ok(c)
  }

  /** The checks of an introspection in their order, with the reason each gives. */
  function IntrospectionChecks(h: Hash, token: Token, current: Key, retired: seq<Key>, now: real,
                               actionType: Option<string>, payload: Option<seq<Member>>): seq<(bool, Inactive)>
  {
    var c := token.claims;
    var signed := token.signedWith == token.kid && c.nbf as real <= now && c.iat as real <= now;
    [ (token.typ != "axg-approval+jwt", ApprovalTicket),
      (token.kid in [current] + retired, UnknownKey),
      (signed ==> now < c.exp as real, Expired),
      (signed && c.iss == "axg-engine", Invalid),
      (c.decision == Allow, NotAllow),
      (actionType.Some? ==> c.actionType == actionType.value, OtherAction),
      (payload.Some? ==> HashPayload(h, payload.value).Some?, UnhashablePayload),
      (payload.Some? ==> HashPayload(h, payload.value) == Some(c.payloadHash), OtherPayload) ]
  }

  /**
   A token is active exactly when it is no ticket, its key is current or retired and signed it, it is in
   force, and it says ALLOW for the asked action and payload; otherwise the first check that fails says why.
   */
  lemma IntrospectExactly(h: Hash, token: Token, current: Key, retired: seq<Key>, now: real,
                          actionType: Option<string>, payload: Option<seq<Member>>)
    ensures var failed := FirstFailure(IntrospectionChecks(h, token, current, retired, now, actionType, payload));
      Introspect(h, token, current, retired, now, actionType, payload) ==
        if failed.Some? then Err(failed.value) else Ok(token.claims)
  {
    hide FirstFailure, HashPayload;
    var checks := IntrospectionChecks(h, token, current, retired, now, actionType, payload);
    if !checks[0].0 {
      FirstFailureExactly(checks, 0);
    } else if !checks[1].0 {
      FirstFailureExactly(checks, 1);
    } else if !checks[2].0 {
      FirstFailureExactly(checks, 2);
    } else if !checks[3].0 {
      FirstFailureExactly(checks, 3);
    } else if !checks[4].0 {
      FirstFailureExactly(checks, 4);
    } else if !checks[5].0 {
      FirstFailureExactly(checks, 5);
    } else if !checks[6].0 {
      FirstFailureExactly(checks, 6);
    } else if !checks[7].0 {
      FirstFailureExactly(checks, 7);
    }
  }
}
