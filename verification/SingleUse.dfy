/** How often a Passport, and a ticket, can be used: over every run, and exactly. */
module SingleUse {
  import opened Results
  import opened JsonValues
  import opened Rules
  import opened Tokens
  import opened Engine
  import opened Approvals
  import opened Replay
  import opened Sdk
  import opened Protocol

  /** A later accepted call with the same jti comes no sooner than the earlier Passport's expiry. */
  ghost predicate SeparateUses(trace: seq<Event>) {
    forall i, j :: 0 <= i < j < |trace| && AcceptedCall(trace[i]) && AcceptedCall(trace[j])
                   && trace[i].result.value.jti == trace[j].result.value.jti
      ==> trace[i].result.value.exp as real <= trace[j].at
  }

  lemma StepKeepsUsesSeparate(rt: Runtime, h: Hash, s: State, step: Step)
    requires Inv(rt, h, s) && Enabled(rt, h, s, step) && SeparateUses(s.trace)
    ensures SeparateUses(Next(rt, h, s, step).trace)
  {
    hide Evaluation, Submit, VerifyCall, Lawful, Enabled;
    if step.Call? {
      var v := VerifyCall(h, step.executor, step.call, s.now, s.seen);
      var e := Called(s.now, step.executor, step.call, v.result);
      AcceptedExactly(h, step.executor, step.call, s.now, s.seen);
      forall i | 0 <= i < |s.trace| && AcceptedCall(s.trace[i]) && AcceptedCall(e)
                 && s.trace[i].result.value.jti == e.result.value.jti
        ensures s.trace[i].result.value.exp as real <= e.at
      {
        assert Remembers(s, s.trace[i]);
      }
    }
  }

  lemma {:induction false} RunsKeepUsesSeparate(rt: Runtime, h: Hash, s: State, steps: seq<Step>)
    requires Inv(rt, h, s) && SeparateUses(s.trace) && Legal(rt, h, s, steps)
    ensures SeparateUses(After(rt, h, s, steps).trace)
    decreases |steps|
  {
    hide Inv, Enabled, SeparateUses, Next;
    if steps != [] {
      StepKeepsInv(rt, h, s, steps[0]);
      StepKeepsUsesSeparate(rt, h, s, steps[0]);
      RunsKeepUsesSeparate(rt, h, Next(rt, h, s, steps[0]), steps[1..]);
    }
  }

  /**
   Over every run: two accepted calls with one jti are separated by the first Passport's expiry. So
   they carry different Passports, and the later one's expiry is strictly later; this covers the
   Passports obtained from one ticket, which share its id.
   */
  lemma NoPassportTwice(rt: Runtime, h: Hash, start: State, steps: seq<Step>, i: nat, j: nat)
    requires Initial(start) && Legal(rt, h, start, steps)
    requires i < j < |After(rt, h, start, steps).trace|
    requires var t := After(rt, h, start, steps).trace;
      AcceptedCall(t[i]) && AcceptedCall(t[j]) && t[i].result.value.jti == t[j].result.value.jti
    ensures var t := After(rt, h, start, steps).trace;
      && t[i].result.value.exp as real <= t[j].at
      && t[i].call.passport != t[j].call.passport
      && t[i].result.value.exp < t[j].result.value.exp
  {
    hide Legal, After, Evaluation, Submit, Next, HashPayload;
    RunsKeepInv(rt, h, start, steps);
    RunsKeepUsesSeparate(rt, h, start, steps);
    var t := After(rt, h, start, steps).trace;
    assert Lawful(rt, h, t[..i], t[i]) && Lawful(rt, h, t[..j], t[j]);
  }

  /**
   After an accepted call, a second Passport with its jti is accepted exactly from the first one's
   expiry on, when the cache forgets the id.
   */
  lemma SecondUseExactly(h: Hash, x: Executor, call1: ToolCall, at1: real, seen: Seen, call2: ToolCall, at2: real)
    requires at1 <= at2
    requires VerifyCall(h, x, call1, at1, seen).result.Ok? && PassesChecks(h, x, call2, at2)
    requires call1.passport.value.claims.jti == call2.passport.value.claims.jti
    ensures VerifyCall(h, x, call2, at2, VerifyCall(h, x, call1, at1, seen).seen).result.Ok?
      <==> call1.passport.value.claims.exp as real <= at2
  {
    AcceptedExactly(h, x, call1, at1, seen);
    AcceptedExactly(h, x, call2, at2, VerifyCall(h, x, call1, at1, seen).seen);
    hide VerifyCall, PassesChecks;
  }

  /**
   A call refused for its arguments uses its Passport up: the right call is accepted only from the
   Passport's expiry on.
   */
  lemma MismatchSpends(h: Hash, x: Executor, call1: ToolCall, at1: real, seen: Seen, call2: ToolCall, at2: real)
    requires at1 <= at2
    requires VerifyCall(h, x, call1, at1, seen).result == Err(ArgumentsMismatch) && PassesChecks(h, x, call2, at2)
    requires call1.passport.Some? && call1.passport.value.claims.jti == call2.passport.value.claims.jti
    ensures var second := VerifyCall(h, x, call2, at2, VerifyCall(h, x, call1, at1, seen).seen).result;
      if call1.passport.value.claims.exp as real <= at2 then second.Ok? else second == Err(Replayed)
  {
    SpentExactly(h, x, call1, at1, seen);
    SpentExactly(h, x, call2, at2, VerifyCall(h, x, call1, at1, seen).seen);
    AcceptedExactly(h, x, call2, at2, VerifyCall(h, x, call1, at1, seen).seen);
    hide VerifyCall, PassesPassport, ArgumentsAuthorized;
  }

  // ---------- refusals ----------

  /** A Passport with this id was spent and has not expired. */
  ghost predicate SpentAndLive(trace: seq<Event>, jti: string, now: real) {
    exists i :: 0 <= i < |trace| && SpentLive(trace[i], jti, now)
  }

  predicate SpentLive(e: Event, jti: string, now: real) {
    Spent(e) && e.call.passport.value.claims.jti == jti && e.call.passport.value.claims.exp > now.Floor
  }

  lemma SpentAppend(init: seq<Event>, e: Event, jti: string, now: real)
    ensures SpentAndLive(init + [e], jti, now) <==> SpentAndLive(init, jti, now) || SpentLive(e, jti, now)
  {
    hide SpentLive;
    var all := init + [e];
    assert all[|init|] == e;
    assert forall i :: 0 <= i < |init| ==> all[i] == init[i];
    if SpentAndLive(init, jti, now) {
      var i :| 0 <= i < |init| && SpentLive(init[i], jti, now);
      assert SpentLive(all[i], jti, now);
    }
  }

  /** In every run the cache holds an id live exactly when a Passport with it was spent and has not expired. */
  lemma {:induction false} CacheIsSpent(rt: Runtime, h: Hash, trace: seq<Event>, now: real, jti: string)
    requires forall i :: 0 <= i < |trace| ==> Lawful(rt, h, trace[..i], trace[i])
    requires NoneLater(trace, now)
    ensures jti in CacheOf(h, trace) && CacheOf(h, trace)[jti] > now.Floor <==> SpentAndLive(trace, jti, now)
  {
    hide Lawful, SpentLive, SpentAndLive, VerifyCall;
    if trace == [] {
      assert !SpentAndLive(trace, jti, now) by { NothingSpent(jti, now); }
    } else {
      var n := |trace| - 1;
      var init, last := trace[..n], trace[n];
      assert trace == init + [last];
      forall i | 0 <= i < n ensures Lawful(rt, h, init[..i], init[i]) {
        assert init[..i] == trace[..i];
        assert Lawful(rt, h, trace[..i], trace[i]);
      }
      CacheIsSpent(rt, h, init, now, jti);
      SpentAppend(init, last, jti, now);
      CacheAfterEvent(h, init, last);
      assert Lawful(rt, h, init, last) by { assert Lawful(rt, h, trace[..n], trace[n]); }
      LastEvent(rt, h, init, last, now, jti);
    }
  }

  lemma NothingSpent(jti: string, now: real)
    ensures !SpentAndLive([], jti, now)
  {
  }

  lemma LastEvent(rt: Runtime, h: Hash, past: seq<Event>, e: Event, now: real, jti: string)
    requires Lawful(rt, h, past, e) && e.at <= now
    ensures var before := CacheOf(h, past);
      var after := CacheOf(h, past + [e]);
      (jti in after && after[jti] > now.Floor) <==> (jti in before && before[jti] > now.Floor) || SpentLive(e, jti, now)
  {
    CacheAfterEvent(h, past, e);
    if e.Called? {
      SpentExactly(h, e.executor, e.call, e.at, CacheOf(h, past));
      if PassesPassport(h, e.executor, e.call, e.at) {
        var c := e.call.passport.value.claims;
        CacheStep(CacheOf(h, past), Presented(e.at, c.jti, c.exp), now, jti);
      }
    }
    hide CacheOf, VerifyCall, PassesPassport, Store, IsFresh;
  }

  /**
   Over every run: a call whose Passport passes is refused as a replay exactly when an earlier call with
   its id got past the Passport check, accepted or refused for its arguments, and has not expired.
   */
  lemma ReplayedExactly(rt: Runtime, h: Hash, start: State, steps: seq<Step>, i: nat)
    requires Initial(start) && Legal(rt, h, start, steps)
    requires i < |After(rt, h, start, steps).trace| && After(rt, h, start, steps).trace[i].Called?
    ensures var t := After(rt, h, start, steps).trace;
      t[i].result == Err(Replayed) <==>
        && PassesPassport(h, t[i].executor, t[i].call, t[i].at)
        && SpentAndLive(t[..i], t[i].call.passport.value.claims.jti, t[i].at)
  {
    hide Legal, After, Evaluation, Submit, Next, HashPayload, SpentAndLive, CacheOf, VerifyCall, Decodes, Initial,
         Enabled;
    InitialInv(rt, h, start);
    RunsKeepInv(rt, h, start, steps);
    var t := After(rt, h, start, steps).trace;
    var e := t[i];
    assert Lawful(rt, h, t[..i], e);
    SpentExactly(h, e.executor, e.call, e.at, CacheOf(h, t[..i]));
    if e.call.passport.Some? {
      forall k | 0 <= k < i ensures Lawful(rt, h, t[..i][..k], t[..i][k]) {
        assert t[..i][..k] == t[..k];
        assert Lawful(rt, h, t[..k], t[k]);
      }
      CacheIsSpent(rt, h, t[..i], e.at, e.call.passport.value.claims.jti);
    }
  }

  // ---------- two uses of one ticket ----------

  /** The calls two approvals of one ticket pay for, at two times, through a cache without the ticket's id. */
  ghost predicate BothAccepted(h: Hash, x: Executor, call1: ToolCall, call2: ToolCall, t1: real, t2: real, seen: Seen) {
    var first := VerifyCall(h, x, call1, t1, seen);
    first.result.Ok? && VerifyCall(h, x, call2, t2, first.seen).result.Ok?
  }

  /**
   Two approvals of one ticket pay for two calls exactly when their Passports expire in different seconds:
   the first is used early, the second once the cache has forgotten the first. However short the
   ticket's life, two approvals a second apart are enough; the ticket need not outlive a Passport.
   */
  lemma TicketUsedTwiceExactly(h: Hash, x: Executor, request: ApprovalRequest, submitter: Caller,
                               plugins: map<string, Plugin>, retired: seq<Key>, first: Signer, second: Signer,
                               seen: Seen)
    requires request.approve && request.ticket.claims.jti != "" && request.ticket.claims.jti !in seen
    requires first.now <= second.now && first.key == second.key == x.key
    requires Submit(h, request, submitter, plugins, retired, first).Ok?
    requires Submit(h, request, submitter, plugins, retired, second).Ok?
    requires x.appId == request.ticket.claims.aud && (x.tenantId == "" || x.tenantId == request.ticket.claims.tenantId)
    ensures var call1 := Paid(h, request, submitter, plugins, retired, first);
      var call2 := Paid(h, request, submitter, plugins, retired, second);
      (exists t1, t2 ::
        first.now <= t1 <= t2 && second.now <= t2 && BothAccepted(h, x, call1, call2, t1, t2, seen))
      <==> (first.now + PASSPORT_SECONDS as real).Floor < (second.now + PASSPORT_SECONDS as real).Floor
  {
    hide Submit, PassesPassport;
    var call1 := Paid(h, request, submitter, plugins, retired, first);
    var call2 := Paid(h, request, submitter, plugins, retired, second);
    var exp1 := (first.now + PASSPORT_SECONDS as real).Floor;
    var exp2 := (second.now + PASSPORT_SECONDS as real).Floor;
    if exp1 < exp2 {
      var late := if second.now < exp1 as real then exp1 as real else second.now;
      PaidPasses(h, request, submitter, plugins, retired, first, x, first.now);
      PaidPasses(h, request, submitter, plugins, retired, second, x, late);
      AcceptedExactly(h, x, call1, first.now, seen);
      SecondUseExactly(h, x, call1, first.now, seen, call2, late);
      assert BothAccepted(h, x, call1, call2, first.now, late, seen);
    }
    forall t1, t2 | first.now <= t1 <= t2 && second.now <= t2 && BothAccepted(h, x, call1, call2, t1, t2, seen)
      ensures exp1 < exp2
    {
      PaidPasses(h, request, submitter, plugins, retired, first, x, t1);
      PaidPasses(h, request, submitter, plugins, retired, second, x, t2);
      AcceptedExactly(h, x, call1, t1, seen);
      AcceptedExactly(h, x, call2, t2, VerifyCall(h, x, call1, t1, seen).seen);
      SecondUseExactly(h, x, call1, t1, seen, call2, t2);
    }
  }

  /** The call an approval pays for. */
  function Paid(h: Hash, request: ApprovalRequest, submitter: Caller, plugins: map<string, Plugin>, retired: seq<Key>,
                signer: Signer): ToolCall
    requires Submit(h, request, submitter, plugins, retired, signer).Ok?
  {
    ToolCall(request.ticket.claims.actionType, [],
             Submit(h, request, submitter, plugins, retired, signer).value.passport, Some(Obj(request.payload)))
  }

  /** It passes every check exactly until its Passport expires. */
  lemma PaidPasses(h: Hash, request: ApprovalRequest, submitter: Caller, plugins: map<string, Plugin>,
                   retired: seq<Key>, signer: Signer, x: Executor, at: real)
    requires request.approve && request.ticket.claims.jti != ""
    requires Submit(h, request, submitter, plugins, retired, signer).Ok?
    requires x.key == signer.key && x.appId == request.ticket.claims.aud && signer.now <= at
    requires x.tenantId == "" || x.tenantId == request.ticket.claims.tenantId
    ensures var call := Paid(h, request, submitter, plugins, retired, signer);
      && (PassesChecks(h, x, call, at) <==> at < (signer.now + PASSPORT_SECONDS as real).Floor as real)
      && call.passport.Some? && call.passport.value.claims.jti == request.ticket.claims.jti
      && call.passport.value.claims.exp == (signer.now + PASSPORT_SECONDS as real).Floor
  {
    hide HashPayload;
    SubmitExactly(h, request, submitter, plugins, retired, signer);
  }
}
