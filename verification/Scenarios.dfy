/** Concrete runs: the theorems about forwarded, approved and accepted calls speak of something. */
module Scenarios {
  import opened Results
  import opened Strings
  import opened JsonValues
  import opened Rules
  import opened Tokens
  import opened SignedContext
  import opened Engine
  import opened EngineProperties
  import opened Approvals
  import opened PyEquality
  import opened Replay
  import opened Sdk
  import opened Protocol
  import opened Gateway
  import opened ApprovalFlow
  import opened SingleUse
  import opened FreshIds

  // ---------- the parties ----------

  /** A policy that declares one action and gates nothing. */
  function Policy(rules: seq<Rule>, ttl: nat): Plugin {
    Plugin("pay", "1", Thresholds(0.85, 0.65, 0.7), map["pay" := ActionPolicy([], 0.25, "", [])], rules,
           Gate([], [], [], 0.7, "gated"), END_USER_ROLE, ttl)
  }

  function Orchestrator(): Caller {
    Caller("orchestrator", true, {"app"}, Some({APPROVE_PERMISSION}))
  }

  function Interceptor(): Config {
    Config("app", "pay", "agentcore", false)
  }

  function Ann(): Identity {
    Identity("run-1", "tenant", "ann", Agent("bot", []), [Member("source", Str("agentcore"))])
  }

  /** The agent's tool call: "pay" is declared, "refund" is not. */
  function Asked(tool: string): Params {
    Params(tool, [Member("amount", Int(5))], None, None)
  }

  function RequestFor(tool: string): Request {
    BuildRequest(Interceptor(), Asked(tool), Ann())
  }

  function PayloadFor(tool: string): seq<Member> {
    [Member("amount", Int(5)), Member("proposed_action", Str(tool))]
  }

  function NoContext(): VerifiedContext {
    VerifiedContext([], [])
  }

  function Tool(): Executor {
    Executor("app", "tenant", 1, [AXG_ARGUMENT])
  }

  function Start(rules: seq<Rule>, ttl: nat): State {
    State(0.0, 1, [], {1}, map["pay" := Policy(rules, ttl)], {}, map[], [])
  }

  function Drawn(): Signer {
    Signer(1, true, 0.0, "id-1")
  }

  function Asks(tool: string): Step {
    Decide(RequestFor(tool), Orchestrator(), NoContext(), "id-1", true)
  }

  function Answer(rt: Runtime, h: Hash, rules: seq<Rule>, ttl: nat, tool: string): Option<Response> {
    Evaluation(rt, h, Some(Policy(rules, ttl)), RequestFor(tool), Orchestrator(), NoContext(), Drawn())
  }

  function FirstOutput(rt: Runtime, h: Hash, ttl: nat, tool: string): Output {
    Govern(Interceptor(), Asked(tool), Answer(rt, h, [], ttl, tool), Null, None)
  }

  // ---------- what is decided ----------

  lemma NothingObjects(rt: Runtime, rules: seq<Rule>, ttl: nat, tool: string)
    requires tool == "pay" || tool == "refund"
    ensures var policy, request := Policy(rules, ttl), RequestFor(tool);
      && HoldsPermissions(policy, request, Orchestrator()) && !GateFires(policy, request)
      && !GateRaises(policy, request) && !ContextMissing(policy, request, NoContext())
      && (request.actionType in policy.actions <==> tool == "pay")
      && request.confidence >= policy.thresholds.allowMin
  {
  }

  lemma PayloadIsPrintable(tool: string)
    ensures ActionablePayload(RequestFor(tool), []) == PayloadFor(tool) && PrintableMembers(PayloadFor(tool))
    ensures WellFormed(Obj(PayloadFor(tool)))
  {
    var arguments := Asked(tool).arguments;
    assert Get(arguments[1..], "proposed_action").None? && Get(arguments[1..], "proposed_category").None?;
    assert Put(arguments[1..], "proposed_action", Str(tool)) == [Member("proposed_action", Str(tool))];
  }

  /** "pay" is allowed and "refund" asks for confirmation. */
  lemma Decides(rt: Runtime, h: Hash, ttl: nat, tool: string)
    requires tool == "pay" || tool == "refund"
    ensures var r := Answer(rt, h, [], ttl, tool);
      && r.Some? && r.value.payload == PayloadFor(tool)
      && (if tool == "pay" then r.value.decision == Allow && r.value.passport.Some?
          else r.value.decision == Confirm && r.value.ticket.Some?)
  {
    hide Evaluation, GateFires, HoldsPermissions, ContextMissing, ActionablePayload, GateRaises,
         StagedDecision, PayloadFor;
    var policy, request := Policy([], ttl), RequestFor(tool);
    NothingObjects(rt, [], ttl, tool);
    PayloadIsPrintable(tool);
    assert TriggeredFor(rt, policy, request, NoContext()) == [];
    DecisionExactly(rt, h, policy, request, Orchestrator(), NoContext(), Drawn());
    PassportExactly(rt, h, Some(policy), request, Orchestrator(), NoContext(), Drawn());
    PayloadIs(rt, h, policy, request, Orchestrator(), NoContext(), Drawn(), Answer(rt, h, [], ttl, tool).value);
    FinalDecisionExactly(policy, request, [], Orchestrator());
    Staged(policy, request);
  }

  lemma Staged(policy: Plugin, request: Request)
    requires !ContextMissing(policy, request, NoContext())
    ensures var d := FinalDecision(policy, request, [], Orchestrator());
      StagedDecision(policy, request, [], Orchestrator(), NoContext()) == d
  {
    hide FinalDecision, ContextMissing;
  }

  lemma ArgumentsStay(rt: Runtime, ttl: nat, tool: string)
    ensures ArgumentsSurvive(RequestFor(tool), TriggeredFor(rt, Policy([], ttl), RequestFor(tool), NoContext()),
                             Asked(tool).arguments)
  {
  }

  lemma AskIsEnabled(rt: Runtime, h: Hash, ttl: nat, tool: string)
    ensures Initial(Start([], ttl)) && Enabled(rt, h, Start([], ttl), Asks(tool))
  {
  }

  function DecidedState(rules: seq<Rule>, ttl: nat, tool: string, r: Response): State {
    Start(rules, ttl).(
      ids := {"id-1"},
      trace := [Decided(0.0, RequestFor(tool), Orchestrator(), Some(Policy(rules, ttl)), NoContext(), Drawn(), r)])
  }

  lemma AskStep(rt: Runtime, h: Hash, ttl: nat, tool: string)
    requires Answer(rt, h, [], ttl, tool).Some?
    ensures Next(rt, h, Start([], ttl), Asks(tool)) == DecidedState([], ttl, tool, Answer(rt, h, [], ttl, tool).value)
  {
    hide Evaluation;
    assert {} + {"id-1"} == {"id-1"};
  }

  // ---------- runs ----------

  lemma RunOfNone(rt: Runtime, h: Hash, s: State)
    ensures Legal(rt, h, s, []) && After(rt, h, s, []) == s
  {
  }

  lemma RunFrom(rt: Runtime, h: Hash, s: State, a: Step, more: seq<Step>) returns (steps: seq<Step>)
    requires Enabled(rt, h, s, a) && Legal(rt, h, Next(rt, h, s, a), more)
    ensures steps == [a] + more
    ensures Legal(rt, h, s, steps) && After(rt, h, s, steps) == After(rt, h, Next(rt, h, s, a), more)
  {
    hide Enabled, Next;
    steps := [a] + more;
    assert steps[1..] == more;
  }

  lemma CallExtends(rt: Runtime, h: Hash, s: State, call: ToolCall)
    ensures var s' := Next(rt, h, s, Call(Tool(), call));
      && s' == s.(seen := s'.seen, trace := s'.trace) && |s'.trace| == |s.trace| + 1 && s'.trace[..|s.trace|] == s.trace
      && s'.trace[|s.trace|].Called?
  {
    hide VerifyCall;
  }

  lemma CallIsEnabled(rt: Runtime, h: Hash, s: State, call: ToolCall, i: nat)
    requires 1 in s.keys && i < |s.trace| && call.passport.Some? && Issues(s.trace[i], call.passport.value)
    requires call.authorized.Some? && WellFormed(call.authorized.value)
    ensures Enabled(rt, h, s, Call(Tool(), call))
  {
    hide WellFormed;
  }

  // ---------- an allowed call ----------

  /** Through the gateway and to the tool: the forwarded call is accepted, and passes the gateway again. */
  lemma AllowedCallHappens(rt: Runtime, h: Hash) returns (forwarded: Params, steps: seq<Step>)
    ensures FirstOutput(rt, h, 3600, "pay") == Forward(forwarded)
    ensures Legal(rt, h, Start([], 3600), steps)
    ensures var s := After(rt, h, Start([], 3600), steps);
      && |s.trace| == 2 && s.trace[0].Decided? && AcceptedCall(s.trace[1])
      && Govern(Interceptor(), forwarded, None, Null, IntrospectEndpoint(h, s, Orchestrator(), forwarded))
         == Forward(forwarded)
  {
    hide Evaluation, VerifyCall, ArgumentsSurvive, Enabled, Legal, After, Next, IntrospectEndpoint, WellFormed;
    Decides(rt, h, 3600, "pay");
    AskIsEnabled(rt, h, 3600, "pay");
    AskStep(rt, h, 3600, "pay");
    PayloadIsPrintable("pay");
    var r := Answer(rt, h, [], 3600, "pay").value;
    forwarded := FirstOutput(rt, h, 3600, "pay").params;
    var decided := DecidedState([], 3600, "pay", r);
    var call := Call(Tool(), AsToolCall(forwarded));
    assert Issues(decided.trace[0], forwarded.passport.value);
    CallIsEnabled(rt, h, decided, AsToolCall(forwarded), 0);
    AllowedCall(rt, h, decided, forwarded);
    CallExtends(rt, h, decided, AsToolCall(forwarded));
    RunOfNone(rt, h, Next(rt, h, decided, call));
    steps := RunFrom(rt, h, decided, call, []);
    steps := RunFrom(rt, h, Start([], 3600), Asks("pay"), steps);
    AllowedAgain(rt, h, Next(rt, h, decided, call), forwarded);
  }

  lemma AllowedCall(rt: Runtime, h: Hash, decided: State, forwarded: Params)
    requires Answer(rt, h, [], 3600, "pay").Some? && FirstOutput(rt, h, 3600, "pay") == Forward(forwarded)
    requires decided == Next(rt, h, Start([], 3600), Asks("pay"))
    requires decided == DecidedState([], 3600, "pay", Answer(rt, h, [], 3600, "pay").value)
    ensures var trace := Next(rt, h, decided, Call(Tool(), AsToolCall(forwarded))).trace;
      trace != [] && AcceptedCall(trace[|trace| - 1])
  {
    hide Evaluation, VerifyCall, ArgumentsSurvive, Enabled, Legal, After, Next, Govern, SpentBetween, Initial;
    var start := Start([], 3600);
    AskIsEnabled(rt, h, 3600, "pay");
    ArgumentsStay(rt, 3600, "pay");
    RunOfNone(rt, h, start);
    RunOfNone(rt, h, decided);
    NothingSpentYet(decided, forwarded);
    ForwardedCallAccepted(rt, h, start, [], Interceptor(), Asked("pay"), Ann(), Orchestrator(), NoContext(), "id-1",
                          true, Null, []);
  }

  lemma NothingSpentYet(decided: State, forwarded: Params)
    requires |decided.trace| == 1 && decided.trace[0].Decided?
    ensures forall token :: !SpentBetween(decided.trace, 0, token)
  {
  }

  lemma AllowedAgain(rt: Runtime, h: Hash, s: State, forwarded: Params)
    requires FirstOutput(rt, h, 3600, "pay") == Forward(forwarded) && s.now == 0.0 && s.current == 1
    ensures Govern(Interceptor(), forwarded, None, Null, IntrospectEndpoint(h, s, Orchestrator(), forwarded))
         == Forward(forwarded)
  {
    hide Evaluation, ArgumentsSurvive, Govern, IntrospectEndpoint;
    ArgumentsStay(rt, 3600, "pay");
    ForwardedPassesAgain(rt, h, Interceptor(), Asked("pay"), Ann(), Policy([], 3600), Orchestrator(), NoContext(),
                         Drawn(), Null, s, Orchestrator());
  }

  /** The forwarded call with another amount, then as it was forwarded: refused for its arguments, then as a replay. */
  lemma WrongCallSpendsPassport(rt: Runtime, h: Hash) returns (forwarded: Params, steps: seq<Step>)
    ensures FirstOutput(rt, h, 3600, "pay") == Forward(forwarded)
    ensures Legal(rt, h, Start([], 3600), steps)
    ensures var t := After(rt, h, Start([], 3600), steps).trace;
      && |t| == 3 && t[1].Called? && t[1].result == Err(ArgumentsMismatch) && t[1].call.passport == forwarded.passport
      && t[2].Called? && t[2].call == AsToolCall(forwarded) && t[2].result == Err(Replayed)
  {
    hide Evaluation, VerifyCall, ArgumentsSurvive, Enabled, Legal, After, Next, WellFormed, PassesChecks,
         PassesPassport, ArgumentsAuthorized;
    Decides(rt, h, 3600, "pay");
    AskIsEnabled(rt, h, 3600, "pay");
    AskStep(rt, h, 3600, "pay");
    PayloadIsPrintable("pay");
    var r := Answer(rt, h, [], 3600, "pay").value;
    forwarded := FirstOutput(rt, h, 3600, "pay").params;
    var s := DecidedState([], 3600, "pay", r);
    var right := AsToolCall(forwarded);
    var wrong := right.(arguments := [Member("amount", Int(6))]);
    assert Issues(s.trace[0], right.passport.value);
    ForwardedPasses(rt, h, r, forwarded);
    WrongAmount("pay");
    CallIsEnabled(rt, h, s, wrong, 0);
    CallExtends(rt, h, s, wrong);
    CallAnswers(rt, h, s, wrong);
    CallStores(rt, h, s, wrong);
    Mismatches(h, wrong, right);
    var s' := Next(rt, h, s, Call(Tool(), wrong));
    assert s'.trace[0] == s.trace[0];
    CallIsEnabled(rt, h, s', right, 0);
    CallExtends(rt, h, s', right);
    CallAnswers(rt, h, s', right);
    MismatchSpends(h, Tool(), wrong, 0.0, map[], right, 0.0);
    RunOfNone(rt, h, Next(rt, h, s', Call(Tool(), right)));
    steps := RunFrom(rt, h, s', Call(Tool(), right), []);
    steps := RunFrom(rt, h, s, Call(Tool(), wrong), steps);
    steps := RunFrom(rt, h, Start([], 3600), Asks("pay"), steps);
  }

  lemma ForwardedPasses(rt: Runtime, h: Hash, r: Response, forwarded: Params)
    requires Answer(rt, h, [], 3600, "pay") == Some(r) && FirstOutput(rt, h, 3600, "pay") == Forward(forwarded)
    ensures forwarded.name == "pay" && forwarded.passport == r.passport && forwarded.authorized == Some(Obj(r.payload))
    ensures PassesChecks(h, Tool(), AsToolCall(forwarded), 0.0)
    ensures r.passport.Some? && r.passport.value.claims.exp == PASSPORT_SECONDS
  {
    hide Evaluation, ArgumentsSurvive, VerifyCall, PassesChecks, IsFresh, WellFormed;
    ArgumentsStay(rt, 3600, "pay");
    PayloadIsPrintable("pay");
    PayWellFormed();
    GatewayCompleteness(rt, h, Interceptor(), Asked("pay"), Ann(), Policy([], 3600), Orchestrator(), NoContext(),
                        Drawn(), Null, 0.0, map[]);
    AcceptedExactly(h, Tool(), AsToolCall(forwarded), 0.0, map[]);
    EmptyIsFresh("id-1");
    PassportSays(rt, h, Policy([], 3600), RequestFor("pay"), Orchestrator(), NoContext(), Drawn(), r);
  }

  lemma PayWellFormed()
    ensures WellFormed(Obj(Asked("pay").arguments))
  {
  }

  lemma EmptyIsFresh(id: string)
    ensures IsFresh(map[], 0.0, id)
  {
  }

  lemma WrongAmount(tool: string)
    ensures !ArgumentsAuthorized([Member("amount", Int(6))], PayloadFor(tool), [AXG_ARGUMENT])
  {
    assert Get(PayloadFor(tool), "amount") == Some(Int(5));
    assert !PyEq(Int(5), Int(6));
    assert [Member("amount", Int(6))][0].key == "amount";
  }

  lemma Mismatches(h: Hash, wrong: ToolCall, right: ToolCall)
    requires PassesChecks(h, Tool(), right, 0.0) && wrong == right.(arguments := wrong.arguments)
    requires !ArgumentsAuthorized(wrong.arguments, wrong.authorized.value.members, [AXG_ARGUMENT])
    ensures VerifyCall(h, Tool(), wrong, 0.0, map[]).result == Err(ArgumentsMismatch)
  {
    EmptyIsFresh(right.passport.value.claims.jti);
    SpentExactly(h, Tool(), wrong, 0.0, map[]);
    AcceptedExactly(h, Tool(), wrong, 0.0, map[]);
    hide VerifyCall, ArgumentsAuthorized, HashPayload, Decodes, IsFresh;
  }

  // ---------- an approved call ----------

  function Approved(offer: Offer): ApprovalRequest {
    ApprovalRequest(offer.ticket, offer.payload, "ann", END_USER_ROLE, true)
  }

  /** Signing an approval draws no id: the ticket brings it. */
  function ApprovalSigner(offer: Offer, now: real): Signer {
    Signer(1, true, now, offer.ticket.claims.jti)
  }

  function AnswerTo(h: Hash, offer: Offer, ttl: nat, now: real): Result<ApprovalResponse, Rejection> {
    Submit(h, Approved(offer), Orchestrator(), Start([], ttl).plugins, [], ApprovalSigner(offer, now))
  }

  ghost predicate Offered(rt: Runtime, h: Hash, ttl: nat, offer: Offer) {
    var r := Answer(rt, h, [], ttl, "refund");
    && r.Some? && r.value.ticket == Some(offer.ticket) && r.value.payload == offer.payload
    && offer.payload == PayloadFor("refund") && offer.ticket.claims.jti == "id-1"
    && offer.ticket.claims.aud == "app" && offer.ticket.claims.tenantId == "tenant"
    && offer.ticket.claims.actionType == "refund"
  }

  /** Refused, the call comes with an offer. */
  lemma OfferIsMade(rt: Runtime, h: Hash, ttl: nat) returns (offer: Offer)
    ensures var out := FirstOutput(rt, h, ttl, "refund"); out.Refused? && out.offer == Some(offer)
    ensures Offered(rt, h, ttl, offer)
  {
    hide Evaluation, ApproverRole, PayloadFor;
    Decides(rt, h, ttl, "refund");
    var r := Answer(rt, h, [], ttl, "refund").value;
    offer := Offer(r.ticket.value, r.payload);
    TicketSays(rt, h, Policy([], ttl), RequestFor("refund"), Orchestrator(), NoContext(), Drawn(), r, offer.ticket);
  }

  /** Ann's approval of it is answered while the ticket lives. */
  lemma OfferIsAnswered(rt: Runtime, h: Hash, ttl: nat, now: real, offer: Offer)
    requires 0.0 <= now < ttl as real && Offered(rt, h, ttl, offer)
    ensures AnswerTo(h, offer, ttl, now).Ok?
  {
    hide Evaluation, Submit, ApproverRole, WellFormed, PayloadFor, Equiv, Printable, PrintableMembers, TriggeredFor;
    PayloadIsPrintable("refund");
    NoneTriggered(rt, ttl);
    var r := Answer(rt, h, [], ttl, "refund").value;
    var policy, request := Policy([], ttl), RequestFor("refund");
    RoleIsUser(ttl);
    PrintableDict(offer.payload);
    EquivReflexive(Obj(offer.payload));
    assert (0.0 + ttl as real).Floor == ttl;
    ApprovalAcceptedExactly(rt, h, policy, request, Orchestrator(), NoContext(), Drawn(), r, Approved(offer),
                            Orchestrator(), Start([], ttl).plugins, [], ApprovalSigner(offer, now));
  }

  lemma NoneTriggered(rt: Runtime, ttl: nat)
    ensures TriggeredFor(rt, Policy([], ttl), RequestFor("refund"), NoContext()) == []
  {
  }

  lemma PrintableDict(ms: seq<Member>)
    requires PrintableMembers(ms)
    ensures Printable(Obj(ms))
  {
  }

  lemma RoleIsUser(ttl: nat)
    ensures ApproverRole(Policy([], ttl), RequestFor("refund"), []) == END_USER_ROLE
  {
  }

  /** The state after an approval is submitted. */
  lemma ApproveStep(rt: Runtime, h: Hash, s: State, offer: Offer, ttl: nat) returns (s': State)
    requires s.current == 1 && s.retired == [] && s.plugins == Start([], ttl).plugins
    requires |s.trace| > 0 && Issues(s.trace[0], offer.ticket) && WellFormed(Obj(offer.payload))
    requires AnswerTo(h, offer, ttl, s.now).Ok?
    ensures var step := SubmitApproval(Approved(offer), Orchestrator(), true);
      && Enabled(rt, h, s, step) && s' == Next(rt, h, s, step) && s' == s.(trace := s'.trace)
      && |s'.trace| == |s.trace| + 1 && s'.trace[..|s.trace|] == s.trace
      && s'.trace[|s.trace|].Submitted? && s'.trace[|s.trace|].approval == Approved(offer)
      && s'.trace[|s.trace|].answer == AnswerTo(h, offer, ttl, s.now).value
  {
    hide Submit, WellFormed;
    s' := Next(rt, h, s, SubmitApproval(Approved(offer), Orchestrator(), true));
  }

  /** Refused, offered, approved, repeated: the gateway passes the repeated call on and the tool accepts it. */
  lemma ApprovedCallHappens(rt: Runtime, h: Hash) returns (repeated: Params, steps: seq<Step>)
    ensures var out := FirstOutput(rt, h, 3600, "refund");
      out.Refused? && out.offer.Some? && repeated.authorized == Some(Obj(out.offer.value.payload))
    ensures Legal(rt, h, Start([], 3600), steps)
    ensures var s := After(rt, h, Start([], 3600), steps);
      && |s.trace| == 3 && s.trace[1].Submitted? && AcceptedCall(s.trace[2]) && s.trace[2].call == AsToolCall(repeated)
      && Govern(Interceptor(), repeated, None, Null, IntrospectEndpoint(h, s, Orchestrator(), repeated))
         == Forward(repeated)
  {
    hide Evaluation, Submit, VerifyCall, Enabled, Legal, After, Next, IntrospectEndpoint, WellFormed, PayloadFor;
    var offer := OfferIsMade(rt, h, 3600);
    OfferIsAnswered(rt, h, 3600, 0.0, offer);
    AskIsEnabled(rt, h, 3600, "refund");
    AskStep(rt, h, 3600, "refund");
    PayloadIsPrintable("refund");
    var decided := DecidedState([], 3600, "refund", Answer(rt, h, [], 3600, "refund").value);
    assert Issues(decided.trace[0], offer.ticket);
    var approved := ApproveStep(rt, h, decided, offer, 3600);
    repeated := Repeated(Asked("refund"), AnswerTo(h, offer, 3600, 0.0).value.passport, offer);
    var call := AsToolCall(repeated);
    ApprovedCall(rt, h, approved, offer, repeated);
    assert Issues(approved.trace[1], repeated.passport.value);
    CallIsEnabled(rt, h, approved, call, 1);
    CallExtends(rt, h, approved, call);
    CallAnswers(rt, h, approved, call);
    var called := Next(rt, h, approved, Call(Tool(), call));
    ApprovedCall(rt, h, called, offer, repeated);
    RunOfNone(rt, h, called);
    steps := RunFrom(rt, h, approved, Call(Tool(), call), []);
    steps := RunFrom(rt, h, decided, SubmitApproval(Approved(offer), Orchestrator(), true), steps);
    steps := RunFrom(rt, h, Start([], 3600), Asks("refund"), steps);
  }

  lemma CallAnswers(rt: Runtime, h: Hash, s: State, call: ToolCall)
    ensures var e := Next(rt, h, s, Call(Tool(), call)).trace[|s.trace|];
      e == Called(s.now, Tool(), call, VerifyCall(h, Tool(), call, s.now, s.seen).result)
  {
    hide VerifyCall;
  }

  lemma ApprovedCall(rt: Runtime, h: Hash, s: State, offer: Offer, repeated: Params)
    requires var out := FirstOutput(rt, h, 3600, "refund"); out.Refused? && out.offer == Some(offer)
    requires offer.ticket.claims.jti == "id-1" && AnswerTo(h, offer, 3600, 0.0).Ok?
    requires repeated == Repeated(Asked("refund"), AnswerTo(h, offer, 3600, 0.0).value.passport, offer)
    requires s.now == 0.0 && s.current == 1
    ensures repeated.passport.Some? && VerifyCall(h, Tool(), AsToolCall(repeated), 0.0, map[]).result.Ok?
    ensures Govern(Interceptor(), repeated, None, Null, IntrospectEndpoint(h, s, Orchestrator(), repeated))
         == Forward(repeated)
  {
    hide Evaluation, ArgumentsSurvive, Govern, IntrospectEndpoint, VerifyCall;
    ArgumentsStay(rt, 3600, "refund");
    RefusalOffers(rt, h, Interceptor(), Asked("refund"), Ann(), Policy([], 3600), Orchestrator(), NoContext(), Drawn(),
                  Null, offer);
    ApprovalCompleteness(rt, h, Interceptor(), Asked("refund"), Ann(), Policy([], 3600), Orchestrator(), NoContext(),
                         Drawn(), Null, offer, Approved(offer), Orchestrator(), Start([], 3600).plugins, [],
                         ApprovalSigner(offer, 0.0), s, Orchestrator(), map[]);
    SubmitExactly(h, Approved(offer), Orchestrator(), Start([], 3600).plugins, [], ApprovalSigner(offer, 0.0));
  }

  // ---------- one ticket, two calls ----------

  function PaidAt(h: Hash, offer: Offer, now: real): ToolCall
    requires AnswerTo(h, offer, 60, now).Ok?
  {
    Paid(h, Approved(offer), Orchestrator(), Start([], 60).plugins, [], ApprovalSigner(offer, now))
  }

  lemma PaidCall(h: Hash, offer: Offer, now: real, at: real)
    requires offer.ticket.claims.jti == "id-1" && offer.ticket.claims.aud == "app"
      && offer.ticket.claims.tenantId == "tenant"
    requires AnswerTo(h, offer, 60, now).Ok? && now <= at < (now + PASSPORT_SECONDS as real).Floor as real
    ensures var call := PaidAt(h, offer, now);
      && PassesChecks(h, Tool(), call, at) && call.passport == AnswerTo(h, offer, 60, now).value.passport
      && call.passport.Some? && call.passport.value.claims.jti == "id-1"
      && call.passport.value.claims.exp == (now + PASSPORT_SECONDS as real).Floor
  {
    hide Submit, PassesChecks;
    PaidPasses(h, Approved(offer), Orchestrator(), Start([], 60).plugins, [], ApprovalSigner(offer, now), Tool(), at);
  }

  /**
   A ticket of sixty seconds, approved at 0 and again at 30, pays for a call at 30 and for another at
   300: the ticket is long gone, but its second Passport lives until 330.
   */
  lemma ShortTicketPaysTwice(rt: Runtime, h: Hash) returns (steps: seq<Step>)
    ensures Initial(Start([], 60)) && Legal(rt, h, Start([], 60), steps)
    ensures var t := After(rt, h, Start([], 60), steps).trace;
      && |t| == 5 && t[0].Decided? && t[0].plugin == Some(Policy([], 60))
      && t[1].Submitted? && Some(t[1].approval.ticket) == t[0].response.ticket
      && t[2].Submitted? && Some(t[2].approval.ticket) == t[0].response.ticket
      && AcceptedCall(t[3]) && t[3].call.passport == t[1].answer.passport
      && AcceptedCall(t[4]) && t[4].call.passport == t[2].answer.passport
  {
    hide Evaluation, Submit, VerifyCall, Enabled, Legal, After, Next, WellFormed, PayloadFor, PassesChecks;
    var offer := OfferIsMade(rt, h, 60);
    OfferIsAnswered(rt, h, 60, 0.0, offer);
    OfferIsAnswered(rt, h, 60, 30.0, offer);
    AskIsEnabled(rt, h, 60, "refund");
    AskStep(rt, h, 60, "refund");
    PayloadIsPrintable("refund");
    var approve := SubmitApproval(Approved(offer), Orchestrator(), true);
    var s1 := DecidedState([], 60, "refund", Answer(rt, h, [], 60, "refund").value);
    assert Issues(s1.trace[0], offer.ticket);
    var s2 := ApproveStep(rt, h, s1, offer, 60);
    var s3 := Waited(rt, h, s2, 30.0);
    assert Issues(s3.trace[0], offer.ticket);
    var s4 := ApproveStep(rt, h, s3, offer, 60);
    var calls := TwoCalls(rt, h, s4, offer);
    steps := RunFrom(rt, h, s3, approve, calls);
    steps := RunFrom(rt, h, s2, Tick(30.0), steps);
    steps := RunFrom(rt, h, s1, approve, steps);
    steps := RunFrom(rt, h, Start([], 60), Asks("refund"), steps);
  }

  lemma Waited(rt: Runtime, h: Hash, s: State, at: real) returns (s': State)
    requires s.now <= at
    ensures Enabled(rt, h, s, Tick(at)) && s' == Next(rt, h, s, Tick(at)) == s.(now := at)
  {
    s' := Next(rt, h, s, Tick(at));
  }

  /** Call with the first Passport at 30, wait, call with the second one at 300. */
  lemma TwoCalls(rt: Runtime, h: Hash, s: State, offer: Offer) returns (steps: seq<Step>)
    requires offer.ticket.claims.jti == "id-1" && offer.ticket.claims.aud == "app"
      && offer.ticket.claims.tenantId == "tenant"
    requires WellFormed(Obj(offer.payload)) && AnswerTo(h, offer, 60, 0.0).Ok? && AnswerTo(h, offer, 60, 30.0).Ok?
    requires s.now == 30.0 && s.seen == map[] && 1 in s.keys && |s.trace| == 3
    requires s.trace[1].Submitted? && s.trace[1].answer == AnswerTo(h, offer, 60, 0.0).value
    requires s.trace[2].Submitted? && s.trace[2].answer == AnswerTo(h, offer, 60, 30.0).value
    ensures Legal(rt, h, s, steps)
    ensures var t := After(rt, h, s, steps).trace;
      && |t| == 5 && t[..3] == s.trace
      && AcceptedCall(t[3]) && t[3].call.passport == t[1].answer.passport
      && AcceptedCall(t[4]) && t[4].call.passport == t[2].answer.passport
  {
    hide Evaluation, Submit, VerifyCall, Enabled, Legal, After, Next, WellFormed, PassesChecks;
    PaidCall(h, offer, 0.0, 30.0);
    PaidCall(h, offer, 30.0, 300.0);
    var call1, call2 := PaidAt(h, offer, 0.0), PaidAt(h, offer, 30.0);
    assert Issues(s.trace[1], call1.passport.value);
    CallIsEnabled(rt, h, s, call1, 1);
    CallExtends(rt, h, s, call1);
    CallAnswers(rt, h, s, call1);
    AcceptedExactly(h, Tool(), call1, 30.0, map[]);
    var s1 := Next(rt, h, s, Call(Tool(), call1));
    var s2 := Waited(rt, h, s1, 300.0);
    assert s2.trace[..3] == s.trace;
    assert s2.trace[2] == s.trace[2];
    assert Issues(s2.trace[2], call2.passport.value);
    CallIsEnabled(rt, h, s2, call2, 2);
    CallExtends(rt, h, s2, call2);
    CallAnswers(rt, h, s2, call2);
    SecondUseExactly(h, Tool(), call1, 30.0, map[], call2, 300.0);
    CallStores(rt, h, s, call1);
    var s3 := Next(rt, h, s2, Call(Tool(), call2));
    RunOfNone(rt, h, s3);
    steps := RunFrom(rt, h, s2, Call(Tool(), call2), []);
    steps := RunFrom(rt, h, s1, Tick(300.0), steps);
    steps := RunFrom(rt, h, s, Call(Tool(), call1), steps);
  }

  lemma CallStores(rt: Runtime, h: Hash, s: State, call: ToolCall)
    ensures Next(rt, h, s, Call(Tool(), call)).seen == VerifyCall(h, Tool(), call, s.now, s.seen).seen
  {
    hide VerifyCall;
  }

  // ---------- rule order ----------

  /** Any request from somewhere: the condition of both rules. */
  function Always(): Group {
    Group([Condition("source", Exists, Null)], [])
  }

  function WritesTotal(id: string, total: Json): Rule {
    Rule(id, Always(), Allow, "", 0.0, 0.0, [Member("total", total)], [], "")
  }

  lemma SourceIsFound()
    ensures Lookup(Obj(RuleData(Ann().dump, [])), Split("source")) == Some(Str("agentcore"))
  {
    var data := RuleData(Ann().dump, []);
    WholeOf("source", '.');
    assert Get(data, "source") == Some(Str("agentcore"));
    assert ["source"][1..] == [];
    assert Lookup(Str("agentcore"), []) == Some(Str("agentcore"));
  }

  lemma AlwaysTrue(rt: Runtime)
    ensures var data := RuleData(Ann().dump, []);
      GroupHolds(rt, Always(), data) && !GroupRaises(rt, Always(), data)
  {
    hide Lookup, Split, RuleData;
    SourceIsFound();
    var data := RuleData(Ann().dump, []);
    var all := Always().all;
    assert all[1..] == [] && !RaisesBefore(rt, [], false, data);
    assert !ConditionRaises(rt, all[0], data);
    assert !RaisesBefore(rt, all, false, data);
  }

  lemma {:induction false} AlwaysHolds(rt: Runtime, rules: seq<Rule>)
    requires forall r :: r in rules ==> r.condition == Always()
    ensures var data := RuleData(Ann().dump, []);
      Triggered(rt, rules, data) == rules && !RulesRaise(rt, rules, data)
  {
    hide GroupHolds, GroupRaises, RuleData, Always;
    AlwaysTrue(rt);
    if rules != [] {
      AlwaysHolds(rt, rules[1..]);
      assert rules == [rules[0]] + rules[1..];
    }
  }

  /**
   Two ALLOW rules, one of which writes NaN: in one order the call is allowed, in the other it asks for
   confirmation.
   */
  lemma OrderChangesDecision(rt: Runtime, h: Hash)
    ensures var broken, fixed := WritesTotal("broken", Float(NaN)), WritesTotal("fixed", Int(1));
      var a, b := Answer(rt, h, [broken, fixed], 3600, "pay"), Answer(rt, h, [fixed, broken], 3600, "pay");
      a.Some? && b.Some? && a.value.decision == Allow && b.value.decision == Confirm
  {
    hide Evaluation, GateFires, HoldsPermissions, ContextMissing, ActionablePayload, GateRaises,
         Triggered, RulesRaise, RuleData, StagedDecision, FinalDecision;
    var broken, fixed := WritesTotal("broken", Float(NaN)), WritesTotal("fixed", Int(1));
    AllowsIfPrintable(rt, h, [broken, fixed]);
    AllowsIfPrintable(rt, h, [fixed, broken]);
    OrderCanMatter(RequestFor("pay"), broken, fixed);
  }

  lemma AllowsIfPrintable(rt: Runtime, h: Hash, rules: seq<Rule>)
    requires rules != [] && forall r :: r in rules ==> r.condition == Always() && r.decision == Allow
    ensures var a := Answer(rt, h, rules, 3600, "pay");
      a.Some? && a.value.decision == if PrintableMembers(ActionablePayload(RequestFor("pay"), rules)) then Allow
        else Confirm
  {
    hide Evaluation, GateFires, HoldsPermissions, ContextMissing, ActionablePayload, GateRaises,
         Triggered, RulesRaise, RuleData, StagedDecision, FinalDecision;
    NothingObjects(rt, rules, 3600, "pay");
    AlwaysHolds(rt, rules);
    DecisionExactly(rt, h, Policy(rules, 3600), RequestFor("pay"), Orchestrator(), NoContext(), Drawn());
  }
}
