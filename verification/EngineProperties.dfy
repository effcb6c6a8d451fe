/** What the decision pipeline guarantees: exact outcomes, monotonicity, rule order, gate and scores. */
module EngineProperties {
  import opened Results
  import opened JsonValues
  import opened Rules
  import opened Scoring
  import opened Tokens
  import opened SignedContext
  import opened Engine

  // ---------- exact outcomes ----------

  predicate AnyDecides(triggered: seq<Rule>, d: Decision) {
    exists i :: 0 <= i < |triggered| && triggered[i].decision == d
  }

  /**
   The strictest of rules, permissions and gate, in terms of which of them spoke; when none did, the
   confidence decides about declared actions.
   */
  lemma FinalDecisionExactly(plugin: Plugin, request: Request, triggered: seq<Rule>, caller: Caller)
    ensures var d := FinalDecision(plugin, request, triggered, caller);
      var permitted := HoldsPermissions(plugin, request, caller);
      var gated := GateFires(plugin, request);
      && (d == Block <==> AnyDecides(triggered, Block) || !permitted)
      && (d == Allow <==>
            !AnyDecides(triggered, Block) && !AnyDecides(triggered, Confirm) && !AnyDecides(triggered, Suggest)
            && permitted && !gated
            && (triggered == [] ==>
                  request.actionType in plugin.actions && request.confidence >= plugin.thresholds.allowMin))
      && (d == Suggest <==>
            !AnyDecides(triggered, Block) && !AnyDecides(triggered, Confirm) && permitted && !gated
            && (if triggered == [] then
                  && request.actionType in plugin.actions
                  && plugin.thresholds.suggestMin <= request.confidence < plugin.thresholds.allowMin
                else AnyDecides(triggered, Suggest)))
  {
    hide HoldsPermissions, GateFires;
    var base := RuleDecisions(triggered);
    var extra := (if HoldsPermissions(plugin, request, caller) then [] else [Block]);
    var gate := (if GateFires(plugin, request) then [Confirm] else []);
    var ds := base + extra + gate;
    forall x ensures x in ds <==> AnyDecides(triggered, x) || x in extra || x in gate {
      assert x in base <==> AnyDecides(triggered, x) by {
        if x in base {
          var i :| 0 <= i < |base| && base[i] == x;
          assert triggered[i].decision == x;
        }
        if AnyDecides(triggered, x) {
          var i :| 0 <= i < |triggered| && triggered[i].decision == x;
          assert base[i] == x;
        }
      }
    }
    if triggered != [] {
      assert AnyDecides(triggered, triggered[0].decision);
    }
    ThresholdNeverBlocks(plugin, request);
    if ds != [] {
      StrictestExactly(ds);
    }
  }

  lemma ThresholdNeverBlocks(plugin: Plugin, request: Request)
    ensures ThresholdDecision(plugin, request) != Block
  {
  }

  lemma StrictestExactly(ds: seq<Decision>)
    requires ds != []
    ensures var d := Strictest(ds);
      && (d == Block <==> Block in ds)
      && (d == Confirm <==> Block !in ds && Confirm in ds)
      && (d == Suggest <==> Block !in ds && Confirm !in ds && Suggest in ds)
      && (d == Allow <==> Block !in ds && Confirm !in ds && Suggest !in ds)
  {
    var d := Strictest(ds);
    assert Block in ds ==> Rank(Block) <= Rank(d);
    assert Confirm in ds ==> Rank(Confirm) <= Rank(d);
    assert Suggest in ds ==> Rank(Suggest) <= Rank(d);
  }

  /** The rules that triggered for this request. */
  function TriggeredFor(rt: Runtime, plugin: Plugin, request: Request, verified: VerifiedContext): seq<Rule> {
    Triggered(rt, plugin.rules, RuleData(request.dump, verified.facts))
  }

  /**
   ALLOW, BLOCK and SUGGEST, exactly. In particular a triggered ALLOW rule allows an action the
   policy does not even declare, and a triggered rule of any kind replaces the thresholds.
   */
  lemma DecisionExactly(rt: Runtime, h: Hash, plugin: Plugin, request: Request, caller: Caller,
                        verified: VerifiedContext, signer: Signer)
    ensures var resp := Evaluation(rt, h, Some(plugin), request, caller, verified, signer);
      var ts := TriggeredFor(rt, plugin, request, verified);
      var permitted := HoldsPermissions(plugin, request, caller);
      var calm := permitted && !GateFires(plugin, request) && !ContextMissing(plugin, request, verified)
                  && !AnyDecides(ts, Block) && !AnyDecides(ts, Confirm);
      if Raises(rt, plugin, request, verified) then resp.None?
      else
      && resp.Some?
      && (resp.value.decision == Block <==> AnyDecides(ts, Block) || !permitted)
      && (resp.value.decision == Suggest <==>
            calm && (if ts == [] then
                       && request.actionType in plugin.actions
                       && plugin.thresholds.suggestMin <= request.confidence < plugin.thresholds.allowMin
                     else AnyDecides(ts, Suggest)))
      && (resp.value.decision == Allow <==>
            calm && !AnyDecides(ts, Suggest)
            && (ts == [] ==> request.actionType in plugin.actions && request.confidence >= plugin.thresholds.allowMin)
            && caller.authenticated
            && (request.shadowMode || (signer.usable && PrintableMembers(ActionablePayload(request, ts)))))
  {
    hide Triggered, RuleData, HoldsPermissions, GateFires, ContextMissing, AnyDecides, FinalDecision,
         ActionablePayload, StagedFlags, SignChallenge, ScoresOf, Raises;
    FinalDecisionExactly(plugin, request, TriggeredFor(rt, plugin, request, verified), caller);
  }

  /**
   An action the policy does not declare is allowed all the same when rules trigger and all of them
   say ALLOW; otherwise it is never allowed.
   */
  lemma UndeclaredAllowedExactly(rt: Runtime, h: Hash, plugin: Plugin, request: Request, caller: Caller,
                                 verified: VerifiedContext, signer: Signer)
    requires !Raises(rt, plugin, request, verified) && request.actionType !in plugin.actions
    ensures var resp := Evaluation(rt, h, Some(plugin), request, caller, verified, signer);
      var ts := TriggeredFor(rt, plugin, request, verified);
      resp.value.decision == Allow <==>
        && ts != [] && (forall t :: t in ts ==> t.decision == Allow) && !GateFires(plugin, request)
           && caller.authenticated
        && (request.shadowMode || (signer.usable && PrintableMembers(ActionablePayload(request, ts))))
  {
    var ts := TriggeredFor(rt, plugin, request, verified);
    hide Evaluation, Triggered, RuleData, GateFires, ActionablePayload;
    DecisionExactly(rt, h, plugin, request, caller, verified, signer);
    forall t | t in ts ensures AnyDecides(ts, t.decision) {
      DecidedBy(ts, t);
    }
    if !AnyDecides(ts, Block) && !AnyDecides(ts, Confirm) && !AnyDecides(ts, Suggest) {
      forall t | t in ts ensures t.decision == Allow {
        DecidedBy(ts, t);
      }
    }
  }

  /** A list proposed as the action makes the gate raise, and nothing is answered. */
  lemma ListActionRaises(rt: Runtime, h: Hash, plugin: Plugin, request: Request, caller: Caller,
                         verified: VerifiedContext, signer: Signer)
    requires request.payload == [Member("proposed_action", Arr([]))] && request.actionType !in plugin.gate.actions
    ensures Evaluation(rt, h, Some(plugin), request, caller, verified, signer).None?
  {
    assert Get(request.payload, "proposed_action") == Some(Arr([]));
    DecisionExactly(rt, h, plugin, request, caller, verified, signer);
    hide Evaluation;
  }

  /** One ALLOW rule turns the CONFIRM an undeclared action gets from a policy without gate into an ALLOW. */
  lemma AllowRuleLowers(plugin: Plugin, request: Request, rule: Rule, caller: Caller)
    requires plugin.actions == map[] && plugin.gate.actions == [] && rule.decision == Allow
    ensures FinalDecision(plugin, request, [], caller) == Confirm
    ensures FinalDecision(plugin, request, [rule], caller) == Allow
  {
    FinalDecisionExactly(plugin, request, [], caller);
    FinalDecisionExactly(plugin, request, [rule], caller);
    assert [rule][0] == rule;
  }

  /** Every stage only raises: no triggered rule, missing permission, fired gate or missing fact is outvoted. */
  lemma StagesOnlyRaise(rt: Runtime, h: Hash, plugin: Option<Plugin>, request: Request, caller: Caller,
                        verified: VerifiedContext, signer: Signer)
    requires Evaluation(rt, h, plugin, request, caller, verified, signer).Some?
    ensures var d := Evaluation(rt, h, plugin, request, caller, verified, signer).value.decision;
      && (plugin.None? ==> d == Confirm)
      && (plugin.Some? ==>
            && (forall t :: t in TriggeredFor(rt, plugin.value, request, verified) ==> Rank(t.decision) <= Rank(d))
            && (!HoldsPermissions(plugin.value, request, caller) ==> d == Block)
            && (GateFires(plugin.value, request) || ContextMissing(plugin.value, request, verified)
               ==> Rank(Confirm) <= Rank(d)))
      && (!caller.authenticated ==> d != Allow)
  {
    hide Triggered, RuleData, HoldsPermissions, GateFires, ContextMissing, AnyDecides, ActionablePayload,
         StagedDecision, StagedFlags, SignPassport, SignChallenge, ScoresOf;
    if plugin.Some? {
      var ts := TriggeredFor(rt, plugin.value, request, verified);
      DecisionExactly(rt, h, plugin.value, request, caller, verified, signer);
      forall t | t in ts
        ensures Rank(t.decision) <= Rank(Evaluation(rt, h, plugin, request, caller, verified, signer).value.decision)
      {
        DecidedBy(ts, t);
      }
    }
  }

  lemma DecidedBy(ts: seq<Rule>, t: Rule)
    requires t in ts
    ensures AnyDecides(ts, t.decision)
  {
    var i :| 0 <= i < |ts| && ts[i] == t;
  }

  /** A triggered rule raises the flag, or names none and has it for its id; or it is the gate's, and the gate fires. */
  predicate Raised(plugin: Plugin, request: Request, triggered: seq<Rule>, flag: string) {
    || (exists t :: t in triggered && if t.auditFlags != [] then flag in t.auditFlags else flag == t.id)
    || (flag == plugin.gate.auditFlag && GateFires(plugin, request))
  }

  /** The flag of a failed signature: from a failed one, or from a rule or gate that uses the name. */
  lemma SigningFailedExactly(rt: Runtime, h: Hash, plugin: Plugin, request: Request, caller: Caller,
                             verified: VerifiedContext, signer: Signer)
    requires !Raises(rt, plugin, request, verified)
    ensures var r := Evaluation(rt, h, Some(plugin), request, caller, verified, signer).value;
      var ts := TriggeredFor(rt, plugin, request, verified);
      SIGNING_FAILED in r.flags <==>
        || Raised(plugin, request, ts, SIGNING_FAILED)
        || (StagedDecision(plugin, request, ts, caller, verified) == Allow && !request.shadowMode
            && !(signer.usable && PrintableMembers(ActionablePayload(request, ts))))
  {
    hide Triggered, RuleData, FinalDecision, ContextMissing, ActionablePayload, EvaluationFlags, ScoresOf, Raises,
         GateFires, ApproverRole, SignChallenge;
    FlagsExactly(plugin, request, TriggeredFor(rt, plugin, request, verified), SIGNING_FAILED);
  }

  /**
   A Passport exactly for a live ALLOW; a ticket exactly for a live question whose payload can be signed
   and whose flags do not read as a failed signature.
   */
  lemma PassportExactly(rt: Runtime, h: Hash, plugin: Option<Plugin>, request: Request, caller: Caller,
                        verified: VerifiedContext, signer: Signer)
    requires Evaluation(rt, h, plugin, request, caller, verified, signer).Some?
    ensures var r := Evaluation(rt, h, plugin, request, caller, verified, signer).value;
      && (r.passport.Some? <==> plugin.Some? && r.decision == Allow && !request.shadowMode)
      && (r.passport.Some? ==> caller.authenticated)
      && (r.ticket.Some? ==> r.decision == Confirm || r.decision == Suggest)
      && (r.ticket.Some? <==>
            && plugin.Some? && caller.authenticated && !request.shadowMode
            && var ts := TriggeredFor(rt, plugin.value, request, verified);
               var staged := StagedDecision(plugin.value, request, ts, caller, verified);
               && (staged == Confirm || staged == Suggest) && !Raised(plugin.value, request, ts, SIGNING_FAILED)
               && signer.usable && PrintableMembers(ActionablePayload(request, ts)))
  {
    hide Triggered, RuleData, FinalDecision, ContextMissing, ActionablePayload, StagedFlags, ScoresOf, Raises,
         ApproverRole, Raised;
    if plugin.Some? {
      SigningFailedExactly(rt, h, plugin.value, request, caller, verified, signer);
    }
  }

  /** A rule called `passport_signing_failed`, without flags of its own: its question comes without a ticket. */
  lemma FlagSuppressesTicket(rt: Runtime, h: Hash, plugin: Plugin, request: Request, caller: Caller,
                             verified: VerifiedContext, signer: Signer, rule: Rule)
    requires !Raises(rt, plugin, request, verified)
    requires TriggeredFor(rt, plugin, request, verified) == [rule]
    requires rule.id == SIGNING_FAILED && rule.auditFlags == [] && rule.decision == Confirm
    requires HoldsPermissions(plugin, request, caller) && signer.usable
    ensures var r := Evaluation(rt, h, Some(plugin), request, caller, verified, signer).value;
      r.decision == Confirm && r.ticket.None?
  {
    hide Triggered, RuleData, HoldsPermissions, GateFires, ContextMissing, ActionablePayload, Evaluation, Raises,
         StagedDecision;
    var ts := [rule];
    DecisionExactly(rt, h, plugin, request, caller, verified, signer);
    PassportExactly(rt, h, Some(plugin), request, caller, verified, signer);
    assert ts[0] == rule && ts[0].decision == Confirm;
    assert rule in ts;
    assert !AnyDecides(ts, Block);
    assert AnyDecides(ts, Confirm);
  }

  // ---------- monotonicity ----------

  predicate Strict(r: Rule) {
    r.decision == Confirm || r.decision == Block
  }

  /** `more` is `rs` with rules inserted anywhere; with `strictOnly`, only CONFIRM and BLOCK ones. */
  predicate Inserted(rs: seq<Rule>, more: seq<Rule>, strictOnly: bool) {
    if more == [] then rs == []
    else
      || (rs != [] && rs[0] == more[0] && Inserted(rs[1..], more[1..], strictOnly))
      || ((strictOnly ==> Strict(more[0])) && Inserted(rs, more[1..], strictOnly))
  }

  lemma {:induction false} TriggeredInserted(rt: Runtime, rs: seq<Rule>, more: seq<Rule>, strictOnly: bool,
                                             data: seq<Member>)
    requires Inserted(rs, more, strictOnly)
    ensures Inserted(Triggered(rt, rs, data), Triggered(rt, more, data), strictOnly)
    decreases |more|
  {
    if more != [] {
      var ts, tm := Triggered(rt, rs, data), Triggered(rt, more, data);
      if rs != [] && rs[0] == more[0] && Inserted(rs[1..], more[1..], strictOnly) {
        TriggeredInserted(rt, rs[1..], more[1..], strictOnly, data);
        assert GroupHolds(rt, rs[0].condition, data) ==>
          ts[1..] == Triggered(rt, rs[1..], data) && tm[1..] == Triggered(rt, more[1..], data);
      } else {
        TriggeredInserted(rt, rs, more[1..], strictOnly, data);
        assert GroupHolds(rt, more[0].condition, data) ==> tm[1..] == Triggered(rt, more[1..], data);
      }
    }
  }

  lemma {:induction false} InsertedKeeps(rs: seq<Rule>, more: seq<Rule>, d: Decision)
    requires Inserted(rs, more, true)
    ensures AnyDecides(rs, d) ==> AnyDecides(more, d)
    ensures AnyDecides(more, d) && !AnyDecides(rs, d) ==> d == Confirm || d == Block
    ensures !AnyDecides(more, Confirm) && !AnyDecides(more, Block) ==> rs == more
    decreases |more|
  {
    if more != [] {
      AnyDecidesTail(more, d);
      AnyDecidesTail(more, Confirm);
      AnyDecidesTail(more, Block);
      if rs != [] && rs[0] == more[0] && Inserted(rs[1..], more[1..], true) {
        InsertedKeeps(rs[1..], more[1..], d);
        AnyDecidesTail(rs, d);
      } else {
        InsertedKeeps(rs, more[1..], d);
      }
    }
  }

  lemma AnyDecidesTail(rs: seq<Rule>, d: Decision)
    requires rs != []
    ensures AnyDecides(rs, d) <==> rs[0].decision == d || AnyDecides(rs[1..], d)
  {
    if AnyDecides(rs, d) && rs[0].decision != d {
      var i :| 0 <= i < |rs| && rs[i].decision == d;
      assert rs[1..][i - 1].decision == d;
    }
  }

  lemma PermissionsShrink(plugin: Plugin, request: Request, caller: Caller, lesser: Caller)
    requires forall p :: lesser.MayGrant(p) ==> caller.MayGrant(p)
    requires HoldsPermissions(plugin, request, lesser)
    ensures HoldsPermissions(plugin, request, caller)
  {
  }

  lemma {:induction false} InsertedMembers(rs: seq<Rule>, more: seq<Rule>, strictOnly: bool)
    requires Inserted(rs, more, strictOnly)
    ensures forall r :: r in rs ==> r in more
    decreases |more|
  {
    if more != [] {
      assert forall r :: r in more[1..] ==> r in more;
      if rs != [] && rs[0] == more[0] && Inserted(rs[1..], more[1..], strictOnly) {
        assert forall r :: r in rs ==> r == rs[0] || r in rs[1..];
        InsertedMembers(rs[1..], more[1..], strictOnly);
      } else {
        InsertedMembers(rs, more[1..], strictOnly);
      }
    }
  }

  /** Adding CONFIRM or BLOCK rules, or taking grantable permissions from the caller, never lowers the decision. */
  lemma StricterNeverLowers(rt: Runtime, h: Hash, plugin: Plugin, rules: seq<Rule>, request: Request, caller: Caller,
                            lesser: Caller, verified: VerifiedContext, signer: Signer)
    requires Inserted(plugin.rules, rules, true)
    requires lesser.authenticated == caller.authenticated && forall p :: lesser.MayGrant(p) ==> caller.MayGrant(p)
    ensures var before := Evaluation(rt, h, Some(plugin), request, caller, verified, signer);
      var after := Evaluation(rt, h, Some(plugin.(rules := rules)), request, lesser, verified, signer);
      after.Some? ==> before.Some? && Rank(before.value.decision) <= Rank(after.value.decision)
  {
    hide RulesRaise, GateRaises, Evaluation, StagedDecision, Triggered, RuleData, FinalDecision;
    InsertedMembers(plugin.rules, rules, true);
    RaisesLess(rt, plugin.rules, rules, RuleData(request.dump, verified.facts));
    var plugin' := plugin.(rules := rules);
    var ts := TriggeredFor(rt, plugin, request, verified);
    var ts' := TriggeredFor(rt, plugin', request, verified);
    TriggeredInserted(rt, plugin.rules, rules, true, RuleData(request.dump, verified.facts));
    DecisionExactly(rt, h, plugin, request, caller, verified, signer);
    DecisionExactly(rt, h, plugin', request, lesser, verified, signer);
    InsertedKeeps(ts, ts', Block);
    InsertedKeeps(ts, ts', Confirm);
    InsertedKeeps(ts, ts', Suggest);
    if HoldsPermissions(plugin', request, lesser) {
      PermissionsShrink(plugin', request, caller, lesser);
    }
    SameButRules(plugin, plugin', request, caller, verified);
  }

  lemma RaisesLess(rt: Runtime, rs: seq<Rule>, more: seq<Rule>, data: seq<Member>)
    requires forall r :: r in rs ==> r in more
    ensures RulesRaise(rt, rs, data) ==> RulesRaise(rt, more, data)
  {
    hide GroupRaises;
  }

  lemma SameButRules(plugin: Plugin, plugin': Plugin, request: Request, caller: Caller, verified: VerifiedContext)
    requires plugin' == plugin.(rules := plugin'.rules)
    ensures HoldsPermissions(plugin, request, caller) == HoldsPermissions(plugin', request, caller)
    ensures GateFires(plugin, request) == GateFires(plugin', request)
    ensures GateRaises(plugin, request) == GateRaises(plugin', request)
    ensures ContextMissing(plugin, request, verified) == ContextMissing(plugin', request, verified)
  {
  }

  // ---------- rule order ----------

  lemma SameDecisions(rs: seq<Rule>, rs': seq<Rule>, d: Decision)
    requires forall r :: r in rs <==> r in rs'
    ensures AnyDecides(rs, d) <==> AnyDecides(rs', d)
  {
    if AnyDecides(rs, d) {
      var i :| 0 <= i < |rs| && rs[i].decision == d;
      assert rs[i] in rs';
    }
    if AnyDecides(rs', d) {
      var i :| 0 <= i < |rs'| && rs'[i].decision == d;
      assert rs'[i] in rs;
    }
  }

  /**
   Reordering the rules changes the decision only through the payload the rules write, and there
   only when one order leaves it without a JSON text (a NaN some other rule overwrites) and the
   other does not.
   */
  lemma RuleOrderMatters(rt: Runtime, h: Hash, plugin: Plugin, rules: seq<Rule>, request: Request, caller: Caller,
                         verified: VerifiedContext, signer: Signer)
    requires forall r :: r in plugin.rules <==> r in rules
    ensures var plugin' := plugin.(rules := rules);
      var ts, ts' := TriggeredFor(rt, plugin, request, verified), TriggeredFor(rt, plugin', request, verified);
      var before := Evaluation(rt, h, Some(plugin), request, caller, verified, signer);
      var after := Evaluation(rt, h, Some(plugin'), request, caller, verified, signer);
      && (before.Some? <==> after.Some?)
      && (before.Some? ==> (before.value.decision != after.value.decision <==>
            && StagedDecision(plugin, request, ts, caller, verified) == Allow && !request.shadowMode && signer.usable
            && PrintableMembers(ActionablePayload(request, ts)) != PrintableMembers(ActionablePayload(request, ts'))))
  {
    hide Evaluation, RulesRaise, GateRaises, FinalDecision, StagedDecision, ActionablePayload, RuleData, GroupHolds;
    var plugin' := plugin.(rules := rules);
    var ts := TriggeredFor(rt, plugin, request, verified);
    var ts' := TriggeredFor(rt, plugin', request, verified);
    assert forall r :: r in ts <==> r in ts';
    SameDecisions(ts, ts', Block);
    SameDecisions(ts, ts', Confirm);
    SameDecisions(ts, ts', Suggest);
    SameDecisions(ts, ts', Allow);
    assert ts == [] <==> ts' == [] by {
      if ts != [] { assert ts[0] in ts'; }
      if ts' != [] { assert ts'[0] in ts; }
    }
    SameButRules(plugin, plugin', request, caller, verified);
    RaisesLess(rt, plugin.rules, rules, RuleData(request.dump, verified.facts));
    RaisesLess(rt, rules, plugin.rules, RuleData(request.dump, verified.facts));
    DecisionExactly(rt, h, plugin, request, caller, verified, signer);
    DecisionExactly(rt, h, plugin', request, caller, verified, signer);
    StagedExactly(plugin, request, ts, caller, verified);
  }

  /** A rule that writes NaN and one that overwrites it: one order has a canonical text, the other has none. */
  lemma OrderCanMatter(request: Request, broken: Rule, fixed: Rule)
    requires PrintableMembers(request.payload)
    requires broken.payload == [Member("total", Float(NaN))] && fixed.payload == [Member("total", Int(1))]
    ensures PrintableMembers(ActionablePayload(request, [broken, fixed]))
    ensures !PrintableMembers(ActionablePayload(request, [fixed, broken]))
  {
    hide Put;
    var seed := SeedPayload(request);
    SeedIsPrintable(request);
    WritesBoth(seed, broken, fixed);
    WritesBoth(seed, fixed, broken);
    PutTwice(seed, "total", Float(NaN), Int(1));
    PutKeepsPrintable(seed, "total", Int(1));
    var spoiled := ActionablePayload(request, [fixed, broken]);
    assert Get(spoiled, "total") == Some(Float(NaN));
    var i :| 0 <= i < |spoiled| && spoiled[i] == Member("total", Float(NaN));
  }

  lemma SeedIsPrintable(request: Request)
    requires PrintableMembers(request.payload)
    ensures PrintableMembers(SeedPayload(request))
  {
    hide Put;
    var action := Str(request.actionType);
    PutKeepsPrintable(request.payload, "proposed_action", action);
    var c := Get(request.payload, "proposed_category");
    if c.Some? {
      var i :| 0 <= i < |request.payload| && request.payload[i] == Member("proposed_category", c.value);
      PutKeepsPrintable(request.payload, "suggested_category", c.value);
      PutKeepsPrintable(Put(request.payload, "proposed_action", action), "suggested_category", c.value);
    }
  }

  lemma PutKeepsPrintable(ms: seq<Member>, key: string, value: Json)
    requires PrintableMembers(ms) && Printable(value)
    ensures PrintableMembers(Put(ms, key, value))
  {
    PutMembers(ms, key, value);
    var r := Put(ms, key, value);
    forall i | 0 <= i < |r| ensures Printable(r[i].value) {
      assert r[i] in r;
    }
  }

  lemma {:induction false} PutTwice(ms: seq<Member>, key: string, first: Json, second: Json)
    ensures Put(Put(ms, key, first), key, second) == Put(ms, key, second)
  {
    if ms == [] {
      assert [Member(key, first)][1..] == [];
    } else if ms[0].key == key {
      assert ([Member(key, first)] + ms[1..])[1..] == ms[1..];
    } else {
      PutTwice(ms[1..], key, first, second);
      var r := [ms[0]] + Put(ms[1..], key, first);
      assert r[1..] == Put(ms[1..], key, first);
    }
  }

  lemma WritesBoth(payload: seq<Member>, r1: Rule, r2: Rule)
    requires |r1.payload| == 1 && |r2.payload| == 1
    ensures UpdateAll(payload, [r1, r2]) ==
      Put(Put(payload, r1.payload[0].key, r1.payload[0].value), r2.payload[0].key, r2.payload[0].value)
  {
    hide Put;
    var p := Put(payload, r1.payload[0].key, r1.payload[0].value);
    WritesOne(payload, r1.payload);
    WritesOne(p, r2.payload);
    assert [r1, r2][1..] == [r2] && [r2][1..] == [];
    assert UpdateAll(p, [r2]) == UpdateAll(Update(p, r2.payload), []);
  }

  lemma WritesOne(p: seq<Member>, updates: seq<Member>)
    requires |updates| == 1
    ensures Update(p, updates) == Put(p, updates[0].key, updates[0].value)
  {
    assert updates[1..] == [];
  }

  lemma StagedExactly(plugin: Plugin, request: Request, ts: seq<Rule>, caller: Caller, verified: VerifiedContext)
    ensures StagedDecision(plugin, request, ts, caller, verified) == Allow <==>
      && HoldsPermissions(plugin, request, caller) && !GateFires(plugin, request)
      && !ContextMissing(plugin, request, verified) && !AnyDecides(ts, Block) && !AnyDecides(ts, Confirm)
      && !AnyDecides(ts, Suggest) && caller.authenticated
      && (ts == [] ==> request.actionType in plugin.actions && request.confidence >= plugin.thresholds.allowMin)
  {
    hide FinalDecision, HoldsPermissions, GateFires, ContextMissing, AnyDecides;
    FinalDecisionExactly(plugin, request, ts, caller);
  }

  // ---------- the gate ----------

  /** The signals of an uncertain request: unknown intent, fallback, uncertain source. */
  function Signals(plugin: Plugin, request: Request): real {
    (if UnknownIntent(request) then 0.8 else 0.0)
    + (if IntentFellBack(request) then 0.2 else 0.0)
    + (if UncertainSource(plugin.gate, request.source) then 0.1 else 0.0)
  }

  /**
   The gate fires exactly on a gated write whose signals add up to the threshold, or that comes from an
   uncertain source without any intent, unless rounding loses the threshold.
   */
  lemma GateExactly(plugin: Plugin, request: Request)
    ensures GateFires(plugin, request) <==>
      && GatedWrite(plugin, request)
      && (|| Signals(plugin, request) >= plugin.gate.threshold
          || (UncertainSource(plugin.gate, request.source) && request.intent == []
              && Round4(plugin.gate.threshold) >= plugin.gate.threshold))
    ensures OnGrid(plugin.gate.threshold) ==> Round4(plugin.gate.threshold) >= plugin.gate.threshold
  {
    hide GatedWrite, UncertainSource, UnknownIntent, IntentFellBack, Round4;
    var t: real := plugin.gate.threshold;
    var s := Signals(plugin, request);
    var tenths := (if UnknownIntent(request) then 8 else 0) + (if IntentFellBack(request) then 2 else 0)
                  + (if UncertainSource(plugin.gate, request.source) then 1 else 0);
    assert s == tenths as real / 10.0;
    TenthsStay(tenths);
    RoundsInRange(t);
    if OnGrid(t) {
      OnGridStays(t);
    }
    NoIntent(request);
  }

  lemma NoIntent(request: Request)
    ensures request.intent == [] ==> !UnknownIntent(request) && !IntentFellBack(request)
  {
  }

  /** Rounding keeps tenths, such as the sums of the signals. */
  lemma TenthsStay(tenths: int)
    ensures Round4(tenths as real / 10.0) == tenths as real / 10.0
  {
    var s := tenths as real / 10.0;
    assert s * 10000.0 == (1000 * tenths) as real;
    assert Units(s) == 1000 * tenths;
  }

  lemma RoundsInRange(t: real)
    requires 0.0 <= t <= 1.0
    ensures 0.0 <= Round4(t) <= 1.0
  {
  }

  lemma OnGridStays(t: real)
    requires OnGrid(t)
    ensures Round4(t) == t
  {
    assert Units(t) as real == t * 10000.0;
  }

  /** A threshold of 0.70004 is off the grid: the raised score rounds to 0.7 and the gate stays silent. */
  lemma GateSilentOffGrid(plugin: Plugin, request: Request)
    requires plugin.gate.threshold == 0.70004
    requires GatedWrite(plugin, request) && UncertainSource(plugin.gate, request.source) && request.intent == []
    ensures !GateFires(plugin, request)
  {
    assert (0.70004 * 10000.0).Floor == 7000;
    assert Round4(plugin.gate.threshold) == 0.7;
    NoIntent(request);
    GateExactly(plugin, request);
  }

  /**
   A gated write whose resolver fell back, at the default threshold: the gate stays silent, uncertain
   source or not.
   */
  lemma FallbackStaysSilent(plugin: Plugin, request: Request)
    requires plugin.gate.threshold == 0.7 && GatedWrite(plugin, request)
    requires request.intent == [Member("fallback_used", Bool(true))]
    ensures IntentFellBack(request) && !GateFires(plugin, request)
  {
    hide GatedWrite, UncertainSource, GateFires;
    assert request.intent[1..] == [];
    GateExactly(plugin, request);
  }

  /** A gate that fires is outvoted by a rule that blocks. */
  lemma BlockOutvotesGate(plugin: Plugin, request: Request, rule: Rule, caller: Caller)
    requires GateFires(plugin, request) && rule.decision == Block
    ensures FinalDecision(plugin, request, [rule], caller) == Block
  {
    hide GateFires, FinalDecision, HoldsPermissions;
    FinalDecisionExactly(plugin, request, [rule], caller);
    assert [rule][0].decision == Block;
  }

  // ---------- scores ----------

  lemma {:induction false} SumsGrow(rs: seq<Rule>, more: seq<Rule>)
    requires Inserted(rs, more, false)
    ensures Penalty(rs) <= Penalty(more) && RiskDelta(rs) <= RiskDelta(more)
    decreases |more|
  {
    if more != [] {
      if rs != [] && rs[0] == more[0] && Inserted(rs[1..], more[1..], false) {
        SumsGrow(rs[1..], more[1..]);
      } else {
        SumsGrow(rs, more[1..]);
      }
    }
  }

  /** Scores lie in [0, 1]; more triggered rules never lower the risk nor raise the final confidence. */
  lemma ScoresMonotone(plugin: Plugin, request: Request, triggered: seq<Rule>, more: seq<Rule>)
    requires Inserted(triggered, more, false)
    ensures var a, b := ScoresOf(plugin, request, triggered), ScoresOf(plugin, request, more);
      && 0.0 <= a.finalConfidence <= 1.0 && 0.0 <= a.risk <= 1.0 && 0.0 <= a.uncertainty <= 1.0
      && a.risk <= b.risk && b.finalConfidence <= a.finalConfidence && a.uncertainty == b.uncertainty
  {
    hide Penalty, RiskDelta, BaseRisk, RawUncertainty, Clamp, Inserted;
    SumsGrow(triggered, more);
    ClampMonotone(request.confidence - Penalty(more), request.confidence - Penalty(triggered));
    ClampMonotone(BaseRisk(plugin, request) + RiskDelta(triggered), BaseRisk(plugin, request) + RiskDelta(more));
  }

  // ---------- the approver ----------

  /** i is the strictest of the rules that name a role, and the earliest among equally strict ones. */
  predicate PicksRole(rs: seq<Rule>, i: nat)
    requires i < |rs|
  {
    && rs[i].approverRole != ""
    && forall j :: 0 <= j < |rs| && rs[j].approverRole != "" ==>
         Rank(rs[j].decision) < Rank(rs[i].decision) || (Rank(rs[j].decision) == Rank(rs[i].decision) && i <= j)
  }

  predicate SortedByRank(rs: seq<Rule>) {
    forall i, j :: 0 <= i < j < |rs| ==> Rank(rs[j].decision) <= Rank(rs[i].decision)
  }

  lemma {:induction false} InsertByRankKeepsSorted(r: Rule, rs: seq<Rule>)
    requires SortedByRank(rs)
    ensures SortedByRank(InsertByRank(r, rs))
    ensures forall x :: x in InsertByRank(r, rs) <==> x == r || x in rs
  {
    if rs != [] && Rank(rs[0].decision) > Rank(r.decision) {
      var tail := InsertByRank(r, rs[1..]);
      InsertByRankKeepsSorted(r, rs[1..]);
      forall i | 0 <= i < |tail| ensures Rank(tail[i].decision) <= Rank(rs[0].decision) {
        assert tail[i] in tail;
      }
    }
  }

  lemma {:induction false} SortByRankSorts(rs: seq<Rule>)
    ensures SortedByRank(SortByRank(rs))
  {
    if rs != [] {
      SortByRankSorts(rs[1..]);
      InsertByRankKeepsSorted(rs[0], SortByRank(rs[1..]));
    }
  }

  lemma {:induction false} FirstWithRoleOfInsert(r: Rule, rs: seq<Rule>)
    requires SortedByRank(rs)
    ensures var f := FirstWithRole(rs);
      FirstWithRole(InsertByRank(r, rs)) ==
        if r.approverRole != "" && (f.None? || Rank(f.value.decision) <= Rank(r.decision)) then Some(r) else f
  {
    if rs != [] {
      FirstIsIn(rs);
      if Rank(rs[0].decision) > Rank(r.decision) {
        FirstWithRoleOfInsert(r, rs[1..]);
      }
    }
  }

  lemma {:induction false} FirstIsIn(rs: seq<Rule>)
    ensures FirstWithRole(rs).Some? ==> FirstWithRole(rs).value in rs && FirstWithRole(rs).value.approverRole != ""
    ensures FirstWithRole(rs).None? ==> forall r :: r in rs ==> r.approverRole == ""
  {
    if rs != [] && rs[0].approverRole == "" {
      FirstIsIn(rs[1..]);
    }
  }

  /** Sorting and searching finds the role of the strictest rule that has one, and of equally strict rules the first. */
  lemma {:induction false} StrictestRoleWins(rs: seq<Rule>) returns (i: int)
    ensures var f := FirstWithRole(SortByRank(rs));
      if f.None? then i == -1 && forall r :: r in rs ==> r.approverRole == ""
      else 0 <= i < |rs| && f.value == rs[i] && PicksRole(rs, i)
  {
    if rs == [] {
      i := -1;
    } else {
      var j := StrictestRoleWins(rs[1..]);
      SortByRankSorts(rs[1..]);
      FirstWithRoleOfInsert(rs[0], SortByRank(rs[1..]));
      var f := FirstWithRole(SortByRank(rs[1..]));
      if rs[0].approverRole != "" && (f.None? || Rank(f.value.decision) <= Rank(rs[0].decision)) {
        i := 0;
        assert forall k :: 1 <= k < |rs| ==> rs[k] == rs[1..][k - 1];
      } else {
        i := if j == -1 then -1 else j + 1;
        assert forall k :: 1 <= k < |rs| ==> rs[k] == rs[1..][k - 1];
      }
    }
  }

  // ---------- the actionable payload ----------

  lemma {:induction false} UpdateValue(payload: seq<Member>, updates: seq<Member>, key: string)
    requires DistinctKeys(updates)
    ensures Get(Update(payload, updates), key) == if Get(updates, key).Some? then Get(updates, key)
      else Get(payload, key)
    decreases |updates|
  {
    if updates != [] {
      UpdateValue(Put(payload, updates[0].key, updates[0].value), updates[1..], key);
      assert forall m :: m in updates[1..] ==> m.key != updates[0].key;
    }
  }

  /** The last triggered rule that writes the key. */
  function LastWritten(triggered: seq<Rule>, key: string): Option<Json> {
    if triggered == [] then None
    else
      var later := LastWritten(triggered[1..], key);
      if later.Some? then later else Get(triggered[0].payload, key)
  }

  ghost predicate DictPayloads(triggered: seq<Rule>) {
    forall i :: 0 <= i < |triggered| ==> WellFormed(Obj(triggered[i].payload))
  }

  lemma {:induction false} UpdateAllValue(payload: seq<Member>, triggered: seq<Rule>, key: string)
    requires DictPayloads(triggered)
    ensures Get(UpdateAll(payload, triggered), key) ==
      if LastWritten(triggered, key).Some? then LastWritten(triggered, key) else Get(payload, key)
    decreases |triggered|
  {
    if triggered != [] {
      assert WellFormed(Obj(triggered[0].payload));
      UpdateValue(payload, triggered[0].payload, key);
      UpdateAllValue(Update(payload, triggered[0].payload), triggered[1..], key);
    }
  }

  /** What replaces a request's own value of a key: the last rule that writes it, else the category rewrite. */
  function Rewrite(request: Request, triggered: seq<Rule>, key: string): Option<Json> {
    if LastWritten(triggered, key).Some? then LastWritten(triggered, key)
    else if key == "suggested_category" then Get(request.payload, "proposed_category")
    else None
  }

  /** The payload a decision binds, key by key. */
  lemma PayloadValue(request: Request, triggered: seq<Rule>, key: string)
    requires DictPayloads(triggered)
    ensures Get(ActionablePayload(request, triggered), key) ==
      if Rewrite(request, triggered, key).Some? then Rewrite(request, triggered, key)
      else if key == "proposed_action" && Get(request.payload, key).None? then Some(Str(request.actionType))
      else Get(request.payload, key)
  {
    UpdateAllValue(SeedPayload(request), triggered, key);
  }

  lemma {:induction false} PutKeepsWellFormed(ms: seq<Member>, key: string, value: Json)
    requires WellFormed(Obj(ms)) && WellFormed(value)
    ensures WellFormed(Obj(Put(ms, key, value)))
  {
    PutKeepsKeysDistinct(ms, key, value);
    PutMembers(ms, key, value);
    var r := Put(ms, key, value);
    forall i | 0 <= i < |r| ensures WellFormed(r[i].value) {
      assert r[i] in r;
    }
  }

  lemma {:induction false} PutMembers(ms: seq<Member>, key: string, value: Json)
    ensures forall m :: m in Put(ms, key, value) ==> m == Member(key, value) || m in ms
  {
    if ms != [] && ms[0].key != key {
      PutMembers(ms[1..], key, value);
    }
  }

  lemma {:induction false} UpdateKeepsWellFormed(payload: seq<Member>, updates: seq<Member>)
    requires WellFormed(Obj(payload)) && forall i :: 0 <= i < |updates| ==> WellFormed(updates[i].value)
    ensures WellFormed(Obj(Update(payload, updates)))
    decreases |updates|
  {
    if updates != [] {
      PutKeepsWellFormed(payload, updates[0].key, updates[0].value);
      UpdateKeepsWellFormed(Put(payload, updates[0].key, updates[0].value), updates[1..]);
    }
  }

  lemma {:induction false} UpdateAllKeepsWellFormed(payload: seq<Member>, triggered: seq<Rule>)
    requires WellFormed(Obj(payload)) && DictPayloads(triggered)
    ensures WellFormed(Obj(UpdateAll(payload, triggered)))
    decreases |triggered|
  {
    if triggered != [] {
      assert WellFormed(Obj(triggered[0].payload));
      UpdateKeepsWellFormed(payload, triggered[0].payload);
      UpdateAllKeepsWellFormed(Update(payload, triggered[0].payload), triggered[1..]);
    }
  }

  /** The payload a decision binds is a dict again. */
  lemma PayloadWellFormed(request: Request, triggered: seq<Rule>)
    requires WellFormed(Obj(request.payload)) && DictPayloads(triggered)
    ensures WellFormed(Obj(ActionablePayload(request, triggered)))
  {
    PutKeepsWellFormed(request.payload, "proposed_action", Str(request.actionType));
    var p := if Get(request.payload, "proposed_action").None? then
      Put(request.payload, "proposed_action", Str(request.actionType))
             else request.payload;
    var c := Get(request.payload, "proposed_category");
    if c.Some? {
      var i :| 0 <= i < |request.payload| && request.payload[i] == Member("proposed_category", c.value);
      PutKeepsWellFormed(p, "suggested_category", c.value);
    }
    UpdateAllKeepsWellFormed(SeedPayload(request), triggered);
  }

  // ---------- audit flags ----------

  ghost predicate Distinct(flags: seq<string>) {
    forall i, j :: 0 <= i < j < |flags| ==> flags[i] != flags[j]
  }

  lemma DistinctStep(init: seq<string>, last: string)
    ensures Distinct(init + [last]) <==> Distinct(init) && last !in init
  {
    var all := init + [last];
    if Distinct(all) {
      assert forall i :: 0 <= i < |init| ==> all[i] == init[i] && all[i] != all[|init|];
    }
  }

  lemma NoFlags()
    ensures Distinct([])
  {
  }

  /** `list(dict.fromkeys(flags))` keeps each flag once, and flags already distinct as they are. */
  lemma {:induction false} DedupExactly(flags: seq<string>)
    ensures Distinct(Dedup(flags))
    ensures |Dedup(flags)| <= |flags|
    ensures Dedup(flags) == flags <==> Distinct(flags)
    decreases |flags|
  {
    hide Distinct;
    if flags == [] {
      NoFlags();
    } else {
      var n := |flags| - 1;
      var init, last := flags[..n], flags[n];
      assert flags == init + [last];
      DedupExactly(init);
      DistinctStep(init, last);
      DistinctStep(Dedup(init), last);
    }
  }

  lemma {:induction false} RuleFlagsExactly(triggered: seq<Rule>, flag: string)
    ensures flag in RuleFlags(triggered) <==>
      exists t :: t in triggered && if t.auditFlags != [] then flag in t.auditFlags else flag == t.id
  {
    if triggered != [] {
      RuleFlagsExactly(triggered[1..], flag);
      assert forall t :: t in triggered <==> t == triggered[0] || t in triggered[1..];
    }
  }

  /**
   Each flag says what it is for: a rule's own flags (its id when it names none), the intent, the gate,
   shadow mode.
   */
  lemma FlagsExactly(plugin: Plugin, request: Request, triggered: seq<Rule>, flag: string)
    ensures var flags := EvaluationFlags(plugin, request, triggered);
      && Distinct(flags)
      && (flag in flags <==>
            || (exists t :: t in triggered && if t.auditFlags != [] then flag in t.auditFlags else flag == t.id)
            || (flag == "unknown_intent" && UnknownIntent(request))
            || (flag == "fallback_used" && IntentFellBack(request))
            || (flag == plugin.gate.auditFlag && GateFires(plugin, request))
            || (flag == "shadow_mode_active" && request.shadowMode))
  {
    hide GateFires, UnknownIntent, IntentFellBack, RuleFlags, Dedup;
    RuleFlagsExactly(triggered, flag);
    DedupsFlags(plugin, request, triggered);
  }

  lemma DedupsFlags(plugin: Plugin, request: Request, triggered: seq<Rule>)
    ensures Distinct(EvaluationFlags(plugin, request, triggered))
  {
    hide GateFires, UnknownIntent, IntentFellBack, RuleFlags, Dedup, Distinct;
    var flags := AddFlag(RuleFlags(triggered), UnknownIntent(request), "unknown_intent");
    var flags1 := AddFlag(flags, IntentFellBack(request), "fallback_used");
    var flags2 := AddFlag(flags1, GateFires(plugin, request), plugin.gate.auditFlag);
    DedupExactly(AddFlag(flags2, request.shadowMode, "shadow_mode_active"));
  }
}
