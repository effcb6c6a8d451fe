/** Signed context: which tokens' facts the rules get to see as `verified`. */
module SignedContext {
  import opened Results
  import opened JsonValues

  datatype Provider = Provider(id: string, issuer: string, maxAge: int, key: nat)

  datatype ContextClaims = ContextClaims(
    audience: string, iat: int, exp: int, nbf: Option<int>, tenantId: string, sub: Option<string>, context: Json)

  /** A token as `jwt.decode` meets it: unreadable, lacking a required claim, or complete. */
  datatype ContextToken =
    | Malformed
    | Incomplete(issuer: string)
    | Complete(issuer: string, signedWith: nat, claims: ContextClaims)

  datatype Reason =
    | MalformedToken | UnknownIssuer | NotDecoded(id: string) | TooOld(id: string) | AnotherTenant(id: string)
    | AnotherUser(id: string) | NotAnObject(id: string) | Duplicate(id: string) | ConfigurationInvalid

  /** Facts by provider, in the order they came, and why the other tokens were rejected. */
  datatype VerifiedContext = VerifiedContext(facts: seq<Member>, rejected: seq<Reason>)

  const LEEWAY_SECONDS := 30

  /** What a token is checked against: configured providers, the request's tenant and user, audience and clock. */
  datatype Check = Check(
    providers: map<string, Provider>, tenantId: string, userId: Option<string>, audience: string, now: real)

  /** `_verify_token`. */
  function VerifyToken(token: ContextToken, check: Check): Result<Member, Reason> {
    if token.Malformed? then Err(MalformedToken)
    else if token.issuer !in check.providers then Err(UnknownIssuer)
    else
      var p := check.providers[token.issuer];
      if token.Incomplete? then Err(NotDecoded(p.id))
      else
        var c := token.claims;
        if token.signedWith != p.key || c.audience != check.audience || token.issuer != p.issuer
           || c.exp as real <= check.now - LEEWAY_SECONDS as real || c.iat as real > check.now + LEEWAY_SECONDS as real
           || (c.nbf.Some? && c.nbf.value as real > check.now + LEEWAY_SECONDS as real)
        then Err(NotDecoded(p.id))
        else if check.now - c.iat as real > (p.maxAge + LEEWAY_SECONDS) as real then Err(TooOld(p.id))
        else if c.tenantId != check.tenantId then Err(AnotherTenant(p.id))
        else if c.sub.Some? && c.sub != check.userId then Err(AnotherUser(p.id))
        else if !c.context.Obj? then Err(NotAnObject(p.id))
        else Ok(Member(p.id, c.context))
  }

  /** One token's effect on the context. */
  function WithToken(context: VerifiedContext, token: ContextToken, check: Check): VerifiedContext {
    match VerifyToken(token, check)
    case Err(reason) => context.(rejected := context.rejected + [reason])
    case Ok(m) =>
      if Get(context.facts, m.key).Some? then context.(rejected := context.rejected + [Duplicate(m.key)])
      else context.(facts := context.facts + [m])
  }

  function ContextOf(tokens: seq<ContextToken>, check: Check): VerifiedContext {
    if tokens == [] then VerifiedContext([], [])
    else WithToken(ContextOf(tokens[..|tokens| - 1], check), tokens[|tokens| - 1], check)
  }

  /** `verify_signed_context`; no check means the provider configuration is invalid. */
  method VerifySignedContext(tokens: seq<ContextToken>, check: Option<Check>) returns (r: VerifiedContext)
    ensures check.Some? ==> r == ContextOf(tokens, check.value)
    ensures check.None? ==>
      r.facts == [] && |r.rejected| == |tokens| && forall x :: x in r.rejected ==> x == ConfigurationInvalid
  {
    if check.None? {
      return VerifiedContext([], seq(|tokens|, _ => ConfigurationInvalid));
    }
    var facts, rejected := [], [];
    for i := 0 to |tokens|
      invariant VerifiedContext(facts, rejected) == ContextOf(tokens[..i], check.value)
    {
      assert tokens[..i + 1][..i] == tokens[..i];
      match VerifyToken(tokens[i], check.value)
      case Err(reason) =>
        rejected := rejected + [reason];
      case Ok(m) =>
        if Get(facts, m.key).Some? {
          rejected := rejected + [Duplicate(m.key)];
        } else {
          facts := facts + [m];
        }
    }
    assert tokens[..|tokens|] == tokens;
    r := VerifiedContext(facts, rejected);
  }

  // ---------- conservation ----------

  /** The facts of the provider's earliest valid token. */
  function EarliestValid(tokens: seq<ContextToken>, check: Check, id: string): Option<Json> {
    if tokens == [] then None
    else
      match VerifyToken(tokens[0], check)
      case Ok(m) => if m.key == id then Some(m.value) else EarliestValid(tokens[1..], check, id)
      case Err(_) => EarliestValid(tokens[1..], check, id)
  }

  lemma {:induction false} EarliestOfAppend(tokens: seq<ContextToken>, token: ContextToken, check: Check, id: string)
    ensures EarliestValid(tokens + [token], check, id) ==
      if EarliestValid(tokens, check, id).Some? then EarliestValid(tokens, check, id)
      else EarliestValid([token], check, id)
  {
    if tokens == [] {
      assert [] + [token] == [token];
    } else {
      assert (tokens + [token])[1..] == tokens[1..] + [token];
      EarliestOfAppend(tokens[1..], token, check, id);
    }
  }

  lemma {:induction false} GetOfAppend(ms: seq<Member>, m: Member, key: string)
    ensures Get(ms + [m], key) == if Get(ms, key).Some? then Get(ms, key) else if m.key == key then Some(m.value)
      else None
  {
    if ms == [] {
      assert [] + [m] == [m];
    } else {
      assert (ms + [m])[1..] == ms[1..] + [m];
      GetOfAppend(ms[1..], m, key);
    }
  }

  /**
   Facts and rejections together number the tokens, each provider's facts are those of its earliest
   valid token, and no provider appears twice.
   */
  lemma {:induction false} ContextConservation(tokens: seq<ContextToken>, check: Check)
    ensures var r := ContextOf(tokens, check);
      && |r.facts| + |r.rejected| == |tokens|
      && (forall id :: Get(r.facts, id) == EarliestValid(tokens, check, id))
      && DistinctKeys(r.facts)
  {
    if tokens != [] {
      var n := |tokens| - 1;
      var init, last := tokens[..n], tokens[n];
      assert tokens == init + [last];
      ContextConservation(init, check);
      var before := ContextOf(init, check);
      assert [last][1..] == [];
      forall id ensures Get(ContextOf(tokens, check).facts, id) == EarliestValid(tokens, check, id) {
        EarliestOfAppend(init, last, check, id);
        match VerifyToken(last, check)
        case Ok(m) => GetOfAppend(before.facts, m, id);
        case Err(_) =>
      }
    }
  }

  /** Each token is rejected for its own reason, or as a duplicate of an earlier valid one; facts add no rejection. */
  lemma RejectionsInOrder(tokens: seq<ContextToken>, token: ContextToken, check: Check)
    ensures var v := VerifyToken(token, check);
      ContextOf(tokens + [token], check).rejected == ContextOf(tokens, check).rejected +
        if v.Err? then [v.error]
        else if EarliestValid(tokens, check, v.value.key).Some? then [Duplicate(v.value.key)] else []
  {
    hide VerifyToken;
    ContextAfter(tokens, token, check);
    ContextConservation(tokens, check);
  }

  lemma ContextAfter(tokens: seq<ContextToken>, token: ContextToken, check: Check)
    ensures ContextOf(tokens + [token], check) == WithToken(ContextOf(tokens, check), token, check)
  {
    hide WithToken;
    assert (tokens + [token])[..|tokens|] == tokens;
  }

  /** Facts depend on the facts before, not on the rejections. */
  lemma SameFactsAfter(x: VerifiedContext, y: VerifiedContext, token: ContextToken, check: Check)
    requires x.facts == y.facts
    ensures WithToken(x, token, check).facts == WithToken(y, token, check).facts
  {
    hide VerifyToken;
  }

  /** Invalid tokens, wherever they stand, leave the facts as they are. */
  lemma {:induction false} InvalidTokensIgnored(a: seq<ContextToken>, bad: ContextToken, b: seq<ContextToken>,
                                                check: Check)
    requires VerifyToken(bad, check).Err?
    ensures ContextOf(a + [bad] + b, check).facts == ContextOf(a + b, check).facts
    decreases |b|
  {
    hide ContextOf, VerifyToken, Get;
    if b == [] {
      ContextAfter(a, bad, check);
      assert a + [bad] + [] == a + [bad] && a + [] == a;
    } else {
      var init, last := b[..|b| - 1], b[|b| - 1];
      assert b == init + [last];
      InvalidTokensIgnored(a, bad, init, check);
      ContextAfter(a + [bad] + init, last, check);
      ContextAfter(a + init, last, check);
      SameFactsAfter(ContextOf(a + [bad] + init, check), ContextOf(a + init, check), last, check);
      assert a + [bad] + b == (a + [bad] + init) + [last] && a + b == (a + init) + [last];
    }
  }

  // ---------- provider configuration ----------

  /** `{p.issuer: p for p in providers}`: later entries win. */
  function ByIssuer(providers: seq<Provider>): map<string, Provider> {
    if providers == [] then map[]
    else
      var last := providers[|providers| - 1];
      ByIssuer(providers[..|providers| - 1])[last.issuer := last]
  }

  function Ids(providers: seq<Provider>): set<string> {
    set i | 0 <= i < |providers| :: providers[i].id
  }

  /** The check of `load_providers`, by counting. */
  predicate PassesUniqueness(providers: seq<Provider>) {
    |ByIssuer(providers)| == |providers| && |Ids(providers)| == |providers|
  }

  ghost predicate DistinctProviders(providers: seq<Provider>) {
    forall i, j :: 0 <= i < j < |providers| ==>
      providers[i].issuer != providers[j].issuer && providers[i].id != providers[j].id
  }

  ghost predicate HasIssuer(providers: seq<Provider>, issuer: string) {
    exists i :: 0 <= i < |providers| && providers[i].issuer == issuer
  }

  lemma {:induction false} ByIssuerContents(providers: seq<Provider>)
    ensures forall s :: s in ByIssuer(providers) <==> HasIssuer(providers, s)
  {
    if providers != [] {
      var n := |providers| - 1;
      ByIssuerContents(providers[..n]);
      forall s ensures HasIssuer(providers, s) <==> HasIssuer(providers[..n], s) || s == providers[n].issuer {
        IssuerOfPrefix(providers, s);
      }
    }
  }

  lemma IssuerOfPrefix(providers: seq<Provider>, s: string)
    requires providers != []
    ensures var n := |providers| - 1;
      HasIssuer(providers, s) <==> HasIssuer(providers[..n], s) || s == providers[n].issuer
  {
    var n := |providers| - 1;
    if HasIssuer(providers, s) && s != providers[n].issuer {
      var i :| 0 <= i < |providers| && providers[i].issuer == s;
      assert providers[..n][i].issuer == s;
    }
    if HasIssuer(providers[..n], s) {
      var i :| 0 <= i < n && providers[..n][i].issuer == s;
      assert providers[i].issuer == s;
    }
  }

  ghost predicate DistinctIssuers(providers: seq<Provider>) {
    forall i, j :: 0 <= i < j < |providers| ==> providers[i].issuer != providers[j].issuer
  }

  lemma DistinctIssuersStep(init: seq<Provider>, last: Provider)
    ensures DistinctIssuers(init + [last]) <==> DistinctIssuers(init) && !HasIssuer(init, last.issuer)
  {
    var all := init + [last];
    if DistinctIssuers(all) {
      assert forall i :: 0 <= i < |init| ==> all[i] == init[i] && all[i].issuer != all[|init|].issuer;
    }
  }

  lemma {:induction false} IssuersCount(providers: seq<Provider>)
    ensures |ByIssuer(providers)| <= |providers|
    ensures |ByIssuer(providers)| == |providers| <==> DistinctIssuers(providers)
  {
    hide DistinctIssuers, HasIssuer;
    if providers == [] {
      assert DistinctIssuers(providers) by { NoIssuers(); }
    } else {
      var n := |providers| - 1;
      var init, last := providers[..n], providers[n];
      assert providers == init + [last];
      IssuersCount(init);
      ByIssuerContents(init);
      DistinctIssuersStep(init, last);
      assert ByIssuer(providers).Keys == ByIssuer(init).Keys + {last.issuer};
    }
  }

  lemma NoIssuers()
    ensures DistinctIssuers([])
  {
  }

  lemma {:induction false} IdsCount(providers: seq<Provider>)
    ensures |Ids(providers)| <= |providers|
    ensures |Ids(providers)| == |providers| <==>
      forall i, j :: 0 <= i < j < |providers| ==> providers[i].id != providers[j].id
  {
    if providers != [] {
      var n := |providers| - 1;
      var init, last := providers[..n], providers[n];
      IdsCount(init);
      assert forall i :: 0 <= i < n ==> init[i] == providers[i];
      assert Ids(providers) == Ids(init) + {last.id};
      if last.id in Ids(init) {
        var i :| 0 <= i < |init| && init[i].id == last.id;
        assert providers[i].id == providers[n].id;
      }
    }
  }

  /** Counting finds every repeated issuer and every repeated id. */
  lemma UniquenessExactly(providers: seq<Provider>)
    ensures PassesUniqueness(providers) <==> DistinctProviders(providers)
  {
    IssuersCount(providers);
    IdsCount(providers);
  }

  lemma {:induction false} ByIssuerFinds(providers: seq<Provider>, i: nat)
    requires DistinctProviders(providers) && i < |providers|
    ensures providers[i].issuer in ByIssuer(providers) && ByIssuer(providers)[providers[i].issuer] == providers[i]
  {
    var n := |providers| - 1;
    if i < n {
      ByIssuerFinds(providers[..n], i);
    }
  }

  /** The provider's issuer signed the token, complete and in time, for this tenant, audience and user. */
  predicate VouchedBy(t: ContextToken, p: Provider, check: Check) {
    && t.Complete? && t.issuer == p.issuer && t.signedWith == p.key
    && t.claims.tenantId == check.tenantId && t.claims.audience == check.audience && t.claims.context.Obj?
    && (t.claims.sub.None? || t.claims.sub == check.userId)
    && check.now < (t.claims.exp + LEEWAY_SECONDS) as real && t.claims.iat as real <= check.now + LEEWAY_SECONDS as real
    && (t.claims.nbf.Some? ==> t.claims.nbf.value as real <= check.now + LEEWAY_SECONDS as real)
    && check.now <= (t.claims.iat + p.maxAge + LEEWAY_SECONDS) as real
  }

  /** A configuration that passed: the providers, by issuer. */
  ghost predicate Configured(providers: seq<Provider>, check: Check) {
    PassesUniqueness(providers) && check.providers == ByIssuer(providers)
  }

  /** A token gives a provider's facts exactly when the provider vouches for it. */
  lemma TokenExactly(providers: seq<Provider>, token: ContextToken, check: Check, i: nat)
    requires Configured(providers, check) && i < |providers|
    ensures var r := VerifyToken(token, check);
      r.Ok? && r.value.key == providers[i].id <==> VouchedBy(token, providers[i], check)
    ensures VouchedBy(token, providers[i], check) ==> VerifyToken(token, check).value.value == token.claims.context
  {
    UniquenessExactly(providers);
    ByIssuerContents(providers);
    ByIssuerFinds(providers, i);
    if VerifyToken(token, check).Ok? {
      assert HasIssuer(providers, token.issuer);
      var j :| 0 <= j < |providers| && providers[j].issuer == token.issuer;
      ByIssuerFinds(providers, j);
    }
  }

  /** Token k is the first the provider vouches for. */
  ghost predicate FirstVouched(tokens: seq<ContextToken>, p: Provider, check: Check, k: nat) {
    k < |tokens| && VouchedBy(tokens[k], p, check) && forall j :: 0 <= j < k ==> !VouchedBy(tokens[j], p, check)
  }

  /**
   With a configuration that passes, the facts under a provider's id are those of the first token the
   provider vouches for, and there are none exactly when it vouches for no token.
   */
  lemma FactsExactly(providers: seq<Provider>, tokens: seq<ContextToken>, check: Check, i: nat)
    requires Configured(providers, check) && i < |providers|
    ensures var facts := Get(ContextOf(tokens, check).facts, providers[i].id);
      && (facts.Some? <==> exists k: nat :: FirstVouched(tokens, providers[i], check, k))
      && (facts.None? <==> forall t :: t in tokens ==> !VouchedBy(t, providers[i], check))
      && forall k: nat :: FirstVouched(tokens, providers[i], check, k) ==> facts == Some(tokens[k].claims.context)
  {
    hide VouchedBy, Configured, FirstVouched;
    ContextConservation(tokens, check);
    var k := EarliestExactly(providers, tokens, check, i);
    if k.Some? {
      FirstIsVouched(tokens, providers[i], check, k.value);
    }
    forall k': nat | FirstVouched(tokens, providers[i], check, k') ensures k == Some(k') {
      OnlyOneFirst(tokens, providers[i], check, k, k');
    }
  }

  lemma FirstIsVouched(tokens: seq<ContextToken>, p: Provider, check: Check, k: nat)
    requires FirstVouched(tokens, p, check, k)
    ensures tokens[k] in tokens && VouchedBy(tokens[k], p, check)
  {
  }

  lemma OnlyOneFirst(tokens: seq<ContextToken>, p: Provider, check: Check, k: Option<nat>, k': nat)
    requires FirstVouched(tokens, p, check, k')
    requires if k.Some? then FirstVouched(tokens, p, check, k.value)
      else forall t :: t in tokens ==> !VouchedBy(t, p, check)
    ensures k == Some(k')
  {
    hide VouchedBy;
    assert tokens[k'] in tokens;
  }

  /** Where the provider's earliest valid token stands. */
  lemma {:induction false} EarliestExactly(providers: seq<Provider>, tokens: seq<ContextToken>, check: Check, i: nat)
    returns (k: Option<nat>)
    requires Configured(providers, check) && i < |providers|
    ensures match k
      case Some(n) =>
        && FirstVouched(tokens, providers[i], check, n)
        && EarliestValid(tokens, check, providers[i].id) == Some(tokens[n].claims.context)
      case None =>
        && EarliestValid(tokens, check, providers[i].id).None?
        && forall t :: t in tokens ==> !VouchedBy(t, providers[i], check)
  {
    hide VouchedBy, VerifyToken, Configured;
    if tokens == [] {
      k := None;
    } else {
      TokenExactly(providers, tokens[0], check, i);
      if VouchedBy(tokens[0], providers[i], check) {
        k := Some(0);
      } else {
        var later := EarliestExactly(providers, tokens[1..], check, i);
        k := if later.Some? then Some(later.value + 1) else None;
        assert forall j :: 1 <= j < |tokens| ==> tokens[j] == tokens[1..][j - 1];
      }
    }
  }

  lemma {:induction false} EarliestToken(tokens: seq<ContextToken>, check: Check, id: string) returns (t: ContextToken)
    requires EarliestValid(tokens, check, id).Some?
    ensures t in tokens && VerifyToken(t, check) == Ok(Member(id, EarliestValid(tokens, check, id).value))
  {
    var v := VerifyToken(tokens[0], check);
    if v.Ok? && v.value.key == id {
      t := tokens[0];
    } else {
      t := EarliestToken(tokens[1..], check, id);
    }
  }

  /** The checks of a complete token, in their order, with the reason each gives. */
  function TokenChecks(token: ContextToken, p: Provider, check: Check): seq<(bool, Reason)>
    requires token.Complete?
  {
    var c := token.claims;
    [ (token.signedWith == p.key && token.issuer == p.issuer && c.audience == check.audience
       && check.now < (c.exp + LEEWAY_SECONDS) as real && c.iat as real <= check.now + LEEWAY_SECONDS as real
       && (c.nbf.Some? ==> c.nbf.value as real <= check.now + LEEWAY_SECONDS as real), NotDecoded(p.id)),
      (check.now <= (c.iat + p.maxAge + LEEWAY_SECONDS) as real, TooOld(p.id)),
      (c.tenantId == check.tenantId, AnotherTenant(p.id)),
      (c.sub.Some? ==> c.sub == check.userId, AnotherUser(p.id)),
      (c.context.Obj?, NotAnObject(p.id)) ]
  }

  /** A token is rejected for its issuer, for a missing claim, or for the first check that fails. */
  lemma RejectionExactly(token: ContextToken, check: Check)
    ensures VerifyToken(token, check) ==
      if token.Malformed? then Err(MalformedToken)
      else if token.issuer !in check.providers then Err(UnknownIssuer)
      else
        var p := check.providers[token.issuer];
        if token.Incomplete? then Err(NotDecoded(p.id))
        else
          var failed := FirstFailure(TokenChecks(token, p, check));
          if failed.Some? then Err(failed.value) else Ok(Member(p.id, token.claims.context))
  {
    hide FirstFailure;
    if token.Complete? && token.issuer in check.providers {
      var checks := TokenChecks(token, check.providers[token.issuer], check);
      if !checks[0].0 {
        FirstFailureExactly(checks, 0);
      } else if !checks[1].0 {
        FirstFailureExactly(checks, 1);
      } else if !checks[2].0 {
        FirstFailureExactly(checks, 2);
      } else if !checks[3].0 {
        FirstFailureExactly(checks, 3);
      } else if !checks[4].0 {
        FirstFailureExactly(checks, 4);
      }
    }
  }
}
