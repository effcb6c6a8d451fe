/**
 The whole protocol as a step system: AXG decides and exchanges tickets, operators rotate keys and
 reload policies, executors verify calls. Tokens are unforgeable: whatever is presented was issued
 by AXG, or was not signed with an AXG key. The clock never runs backwards, and a step reads it once.
 */
module Protocol {
  import opened Results
  import opened JsonValues
  import opened Rules
  import opened Tokens
  import opened SignedContext
  import opened Engine
  import opened Approvals
  import opened Replay
  import opened Sdk

  // ---------- states and steps ----------

  /** What happened: answered decisions, accepted approvals and every verified call, with its verdict. */
  datatype Event =
    | Decided(at: real, request: Request, caller: Caller, plugin: Option<Plugin>, verified: VerifiedContext,
              signer: Signer, response: Response)
    | Submitted(at: real, approval: ApprovalRequest, submitter: Caller, plugins: map<string, Plugin>, retired: seq<Key>,
                signer: Signer, answer: ApprovalResponse)
    | Called(at: real, executor: Executor, call: ToolCall, result: Result<Claims, Failure>)

  datatype State = State(
    now: real, current: Key, retired: seq<Key>, keys: set<Key>, plugins: map<string, Plugin>,
    ids: set<string>, seen: Seen, trace: seq<Event>)

  datatype Step =
    | Decide(request: Request, caller: Caller, verified: VerifiedContext, id: string, usable: bool)
    | SubmitApproval(approval: ApprovalRequest, submitter: Caller, usable: bool)
    | Call(executor: Executor, call: ToolCall)
    | RotateKey(key: Key, retired: seq<Key>)
    | ReloadPolicies(plugins: map<string, Plugin>)
    | Tick(now: real)

  ghost predicate Issues(e: Event, token: Token) {
    || (e.Decided? && (e.response.passport == Some(token) || e.response.ticket == Some(token)))
    || (e.Submitted? && e.answer.passport == Some(token))
  }

  ghost predicate Issued(trace: seq<Event>, token: Token) {
    exists i :: 0 <= i < |trace| && Issues(trace[i], token)
  }

  /** Unforgeability: a token signed with an AXG key is one AXG issued. */
  ghost predicate Presentable(s: State, token: Token) {
    token.signedWith in s.keys ==> Issued(s.trace, token)
  }

  ghost predicate DictPlugins(plugins: map<string, Plugin>) {
    forall id :: id in plugins ==> forall r :: r in plugins[id].rules ==> WellFormed(Obj(r.payload))
  }

  function Signing(s: State, usable: bool, id: string): Signer {
    Signer(s.current, usable, s.now, id)
  }

  function PolicyFor(s: State, request: Request): Option<Plugin> {
    if request.pluginId in s.plugins then Some(s.plugins[request.pluginId]) else None
  }

  ghost predicate Enabled(rt: Runtime, h: Hash, s: State, step: Step) {
    match step
    case Decide(request, caller, _, id, _) =>
      caller.MayActFor(request.appId) && id != "" && id !in s.ids && WellFormed(Obj(request.payload))
    case SubmitApproval(approval, _, _) => Presentable(s, approval.ticket) && WellFormed(Obj(approval.payload))
    case Call(x, call) =>
      && x.key in s.keys
      && (call.passport.Some? ==> Presentable(s, call.passport.value))
      && (call.authorized.Some? ==> WellFormed(call.authorized.value))
    case RotateKey(key, retired) => key !in s.keys && forall k :: k in retired ==> k in s.keys
    case ReloadPolicies(plugins) => DictPlugins(plugins)
    case Tick(now) => s.now <= now
  }

  function Next(rt: Runtime, h: Hash, s: State, step: Step): State {
    match step
    case Decide(request, caller, verified, id, usable) =>
      var plugin := PolicyFor(s, request);
      var signer := Signing(s, usable, id);
      (match Evaluation(rt, h, plugin, request, caller, verified, signer)
       case None => s
       case Some(r) =>
         s.(ids := s.ids + {id}, trace := s.trace + [Decided(s.now, request, caller, plugin, verified, signer, r)]))
    case SubmitApproval(approval, submitter, usable) =>
      // A ticket carries its own id, so signing draws none
      var signer := Signing(s, usable, approval.ticket.claims.jti);
      (match Submit(h, approval, submitter, s.plugins, s.retired, signer)
       case Err(_) => s
       case Ok(r) =>
         s.(trace := s.trace + [Submitted(s.now, approval, submitter, s.plugins, s.retired, signer, r)]))
    case Call(x, call) =>
      var v := VerifyCall(h, x, call, s.now, s.seen);
      s.(seen := v.seen, trace := s.trace + [Called(s.now, x, call, v.result)])
    case RotateKey(key, retired) => s.(current := key, retired := retired, keys := s.keys + {key})
    case ReloadPolicies(plugins) => s.(plugins := plugins)
    case Tick(now) => s.(now := now)
  }

  ghost predicate Initial(s: State) {
    s.keys == {s.current} && s.retired == [] && DictPlugins(s.plugins) && s.seen == map[] && s.trace == []
  }

  /** A run: every step is enabled where it is taken. */
  ghost predicate Legal(rt: Runtime, h: Hash, s: State, steps: seq<Step>)
    decreases |steps|
  {
    steps == [] || (Enabled(rt, h, s, steps[0]) && Legal(rt, h, Next(rt, h, s, steps[0]), steps[1..]))
  }

  function After(rt: Runtime, h: Hash, s: State, steps: seq<Step>): State
    decreases |steps|
  {
    if steps == [] then s else After(rt, h, Next(rt, h, s, steps[0]), steps[1..])
  }

  // ---------- what every run keeps ----------

  /** The replay cache after these events. */
  function CacheOf(h: Hash, trace: seq<Event>): Seen {
    if trace == [] then map[]
    else
      var past, e := trace[..|trace| - 1], trace[|trace| - 1];
      if e.Called? then VerifyCall(h, e.executor, e.call, e.at, CacheOf(h, past)).seen else CacheOf(h, past)
  }

  /** The call got its Passport past the Passport check: it was accepted, or refused for its arguments. */
  predicate Spent(e: Event) {
    e.Called? && Spends(e.result) && e.call.passport.Some?
  }

  ghost predicate NoneLater(past: seq<Event>, at: real) {
    forall i :: 0 <= i < |past| ==> past[i].at <= at
  }

  /** Each event was a legal step after the events before it. */
  ghost predicate Lawful(rt: Runtime, h: Hash, past: seq<Event>, e: Event) {
    && NoneLater(past, e.at)
    && match e
    case Decided(at, request, caller, plugin, verified, signer, response) =>
      && signer.now == at && signer.id != "" && caller.MayActFor(request.appId) && WellFormed(Obj(request.payload))
      && (plugin.Some? ==> forall r :: r in plugin.value.rules ==> WellFormed(Obj(r.payload)))
      && Evaluation(rt, h, plugin, request, caller, verified, signer) == Some(response)
    case Submitted(at, approval, submitter, plugins, retired, signer, answer) =>
      && signer.now == at && WellFormed(Obj(approval.payload))
      && Submit(h, approval, submitter, plugins, retired, signer) == Ok(answer)
      && Issued(past, approval.ticket)
    case Called(at, x, call, result) =>
      && (call.authorized.Some? ==> WellFormed(call.authorized.value))
      && result == VerifyCall(h, x, call, at, CacheOf(h, past)).result
      && (Spent(e) ==> Issued(past, call.passport.value))
      && (result.Ok? ==> Spent(e) && PassesChecks(h, x, call, at) && result.value == call.passport.value.claims)
  }

  predicate AcceptedCall(e: Event) {
    e.Called? && e.result.Ok?
  }

  /** The cache remembers every accepted Passport until it expires. */
  ghost predicate Remembers(s: State, e: Event) {
    AcceptedCall(e) && s.now < e.result.value.exp as real ==>
      e.result.value.jti in s.seen && s.seen[e.result.value.jti] == e.result.value.exp
  }

  ghost predicate Inv(rt: Runtime, h: Hash, s: State) {
    && s.current in s.keys && (forall k :: k in s.retired ==> k in s.keys)
    && DictPlugins(s.plugins)
    && s.seen == CacheOf(h, s.trace)
    && (forall i :: 0 <= i < |s.trace| ==> Lawful(rt, h, s.trace[..i], s.trace[i]))
    && NoneLater(s.trace, s.now)
    && (forall i :: 0 <= i < |s.trace| ==> Remembers(s, s.trace[i]))
  }

  lemma LawfulAppend(rt: Runtime, h: Hash, trace: seq<Event>, e: Event)
    requires forall i :: 0 <= i < |trace| ==> Lawful(rt, h, trace[..i], trace[i])
    requires Lawful(rt, h, trace, e)
    ensures forall i :: 0 <= i < |trace + [e]| ==> Lawful(rt, h, (trace + [e])[..i], (trace + [e])[i])
  {
    hide Lawful;
    var t := trace + [e];
    forall i | 0 <= i < |t| ensures Lawful(rt, h, t[..i], t[i]) {
      assert t[..i] == if i < |trace| then trace[..i] else trace;
    }
  }

  lemma CacheAfterEvent(h: Hash, trace: seq<Event>, e: Event)
    ensures CacheOf(h, trace + [e]) ==
      if e.Called? then VerifyCall(h, e.executor, e.call, e.at, CacheOf(h, trace)).seen else CacheOf(h, trace)
  {
    hide VerifyCall;
    assert (trace + [e])[..|trace|] == trace;
  }

  /** A lawful event other than a call keeps the invariant. */
  lemma AppendKeepsInv(rt: Runtime, h: Hash, s: State, ids: set<string>, e: Event)
    requires Inv(rt, h, s) && Lawful(rt, h, s.trace, e) && e.at == s.now && !e.Called?
    ensures Inv(rt, h, s.(ids := ids, trace := s.trace + [e]))
  {
    hide Lawful, CacheOf;
    LawfulAppend(rt, h, s.trace, e);
    CacheAfterEvent(h, s.trace, e);
    var s' := s.(ids := ids, trace := s.trace + [e]);
    assert forall i :: 0 <= i < |s.trace| ==> Remembers(s, s.trace[i]) && s'.trace[i] == s.trace[i];
  }

  lemma DecideKeepsInv(rt: Runtime, h: Hash, s: State, step: Step)
    requires Inv(rt, h, s) && step.Decide? && Enabled(rt, h, s, step)
    ensures Inv(rt, h, Next(rt, h, s, step))
  {
    hide Evaluation, WellFormed, CacheOf;
    var plugin := PolicyFor(s, step.request);
    var signer := Signing(s, step.usable, step.id);
    var r := Evaluation(rt, h, plugin, step.request, step.caller, step.verified, signer);
    if r.Some? {
      AppendKeepsInv(rt, h, s, s.ids + {step.id},
                     Decided(s.now, step.request, step.caller, plugin, step.verified, signer, r.value));
    }
  }

  /** A ticket `submit` accepts was signed with an AXG key, so AXG issued it. */
  lemma SubmitKeepsInv(rt: Runtime, h: Hash, s: State, step: Step)
    requires Inv(rt, h, s) && step.SubmitApproval? && Enabled(rt, h, s, step)
    ensures Inv(rt, h, Next(rt, h, s, step))
  {
    hide Submit, WellFormed, Issued, CacheOf;
    var signer := Signing(s, step.usable, step.approval.ticket.claims.jti);
    var r := Submit(h, step.approval, step.submitter, s.plugins, s.retired, signer);
    if r.Ok? {
      AcceptedTicketIssued(h, s, step);
      var e := Submitted(s.now, step.approval, step.submitter, s.plugins, s.retired, signer, r.value);
      assert Lawful(rt, h, s.trace, e);
      AppendKeepsInv(rt, h, s, s.ids, e);
    }
  }

  lemma AcceptedTicketIssued(h: Hash, s: State, step: Step)
    requires step.SubmitApproval? && Presentable(s, step.approval.ticket)
    requires s.current in s.keys && forall k :: k in s.retired ==> k in s.keys
    requires Submit(h, step.approval, step.submitter, s.plugins, s.retired,
                    Signing(s, step.usable, step.approval.ticket.claims.jti)).Ok?
    ensures Issued(s.trace, step.approval.ticket)
  {
    hide Submit, Approves;
    SubmitExactly(h, step.approval, step.submitter, s.plugins, s.retired,
                  Signing(s, step.usable, step.approval.ticket.claims.jti));
  }

  lemma CallIsLawful(rt: Runtime, h: Hash, s: State, step: Step)
    requires step.Call? && Enabled(rt, h, s, step) && s.seen == CacheOf(h, s.trace) && NoneLater(s.trace, s.now)
    ensures var r := VerifyCall(h, step.executor, step.call, s.now, s.seen).result;
      Lawful(rt, h, s.trace, Called(s.now, step.executor, step.call, r))
  {
    AcceptedExactly(h, step.executor, step.call, s.now, s.seen);
    SpentExactly(h, step.executor, step.call, s.now, s.seen);
    hide VerifyCall, CacheOf, WellFormed, HashPayload, ArgumentsAuthorized;
  }

  lemma CallKeepsInv(rt: Runtime, h: Hash, s: State, step: Step)
    requires Inv(rt, h, s) && step.Call? && Enabled(rt, h, s, step)
    ensures Inv(rt, h, Next(rt, h, s, step))
  {
    hide Lawful, CacheOf, VerifyCall;
    var v := VerifyCall(h, step.executor, step.call, s.now, s.seen);
    var e := Called(s.now, step.executor, step.call, v.result);
    CallIsLawful(rt, h, s, step);
    CacheAfterEvent(h, s.trace, e);
    LawfulAppend(rt, h, s.trace, e);
    var s' := Next(rt, h, s, step);
    assert s'.trace == s.trace + [e];
    forall i | 0 <= i < |s'.trace| ensures Remembers(s', s'.trace[i]) {
      if i < |s.trace| {
        assert Remembers(s, s.trace[i]);
        StillRemembers(h, s, step, s.trace[i]);
      } else {
        AcceptedExactly(h, step.executor, step.call, s.now, s.seen);
      }
    }
  }

  /** A live entry survives every presentation, its own included. */
  lemma StillRemembers(h: Hash, s: State, step: Step, e: Event)
    requires step.Call? && Remembers(s, e)
    ensures Remembers(s.(seen := VerifyCall(h, step.executor, step.call, s.now, s.seen).seen), e)
  {
    hide CheckPassport, ArgumentsAuthorized;
  }

  lemma StepKeepsInv(rt: Runtime, h: Hash, s: State, step: Step)
    requires Inv(rt, h, s) && Enabled(rt, h, s, step)
    ensures Inv(rt, h, Next(rt, h, s, step))
  {
    match step
    case Decide(_, _, _, _, _) => DecideKeepsInv(rt, h, s, step);
    case SubmitApproval(_, _, _) => SubmitKeepsInv(rt, h, s, step);
    case Call(_, _) => CallKeepsInv(rt, h, s, step);
    case _ => SilentKeepsInv(rt, h, s, step);
  }

  lemma SilentKeepsInv(rt: Runtime, h: Hash, s: State, step: Step)
    requires Inv(rt, h, s) && Enabled(rt, h, s, step)
    requires step.RotateKey? || step.ReloadPolicies? || step.Tick?
    ensures Inv(rt, h, Next(rt, h, s, step))
  {
    hide Lawful, CacheOf;
    var s' := Next(rt, h, s, step);
    assert forall i :: 0 <= i < |s.trace| ==> Remembers(s, s.trace[i]);
    assert forall i :: 0 <= i < |s.trace| ==> Remembers(s', s.trace[i]);
  }

  lemma InitialInv(rt: Runtime, h: Hash, s: State)
    requires Initial(s)
    ensures Inv(rt, h, s)
  {
  }

  lemma {:induction false} RunsKeepInv(rt: Runtime, h: Hash, s: State, steps: seq<Step>)
    requires Inv(rt, h, s) && Legal(rt, h, s, steps)
    ensures Inv(rt, h, After(rt, h, s, steps))
    decreases |steps|
  {
    if steps != [] {
      StepKeepsInv(rt, h, s, steps[0]);
      RunsKeepInv(rt, h, Next(rt, h, s, steps[0]), steps[1..]);
    }
  }
}
