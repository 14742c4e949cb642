/** The policy object: its methods update its fields step by step. */
module SmokePolicyObject {
  import opened Results
  import opened Policy
  import opened PolicyBooks
  import opened Accounting

  class SmokePolicy {
    const config: Config
    var active: bool
    var position: nat
    var halted: bool
    var permit: Option<Permit>
    var exposureHaiku: int
    var exposureTitan: int
    var attempts: map<Stage, Attempt>
    var extraRequests: seq<Extra>
    var extraEvidence: set<string>
    var unestablished: set<Mark>
    var coverageViolated: bool
    var journal: seq<Event>

    ghost function Ledger(): Account
      reads this
    {
      Account(exposureHaiku, exposureTitan, attempts, extraRequests, unestablished, coverageViolated)
    }

    ghost function S(): State
      reads this
    {
      State(active, position, halted, permit, Ledger(), extraEvidence, journal)
    }

    constructor (c: Config)
      ensures config == c && S() == Initial(c)
    {
      config := c;
      active, position, halted, permit := false, 0, false, None;
      exposureHaiku, exposureTitan, attempts := 0, 0, map[];
      extraRequests, extraEvidence, unestablished, coverageViolated, journal := [], {}, {}, false, [];
    }

    /** `activate` up to the body: the claim directory is new and the claim record is written. */
    method Activate(journalOk: bool) returns (ok: bool)
      modifies this
      ensures S() == Journal(old(S()).(active := true), ClaimEvent, journalOk) && ok == journalOk
    {
      active := true;
      Record(ClaimEvent, journalOk);
      ok := journalOk;
    }

    /** `activate` after the body. */
    method Close(end: BodyEnd, completeOk: bool, stoppedOk: bool) returns (stop: Option<Stop>)
      modifies this
      ensures S() == CloseRun(old(S()), end, completeOk, stoppedOk).0
      ensures stop == CloseRun(old(S()), end, completeOk, stoppedOk).1
    {
      stop := match end
        case BodyReturns => if !halted && position == STAGES then None else Some(ChainIncomplete)
        case BodyStops(code) => Some(code)
        case BodyRaises => Some(LocalOrUncertainFailure);
      if stop.None? {
        Record(CompleteEvent, completeOk);
        stop := if completeOk then None else Some(EvidencePublication);
      }
      if stop.Some? {
        Fail();
        Record(StoppedEvent, stoppedOk);
        stop := if stoppedOk then stop else Some(EvidencePublication);
      }
      permit := None;
      active := false;
    }

    /** `fail`, without the code. */
    method Fail()
      modifies this`halted
      ensures S() == Halt(old(S()))
    {
      halted := true;
    }

    method Record(event: Event, ok: bool)
      modifies this`halted, this`journal
      ensures S() == Journal(old(S()), event, ok)
    {
      if ok {
        journal := journal + [event];
      } else {
        Fail();
      }
    }

    method Spend(p: Provider, amount: int)
      modifies this`exposureHaiku, this`exposureTitan
      ensures Ledger() == AddExposure(old(Ledger()), p, amount)
    {
      if p == Haiku {
        exposureHaiku := exposureHaiku + amount;
      } else {
        exposureTitan := exposureTitan + amount;
      }
    }

    /** `_parameters` */
    method Parameters(matches: bool) returns (raised: Option<LocalCode>)
      modifies this`permit
      ensures S() == OnParameters(old(S()), matches)
      ensures raised.None? <==> permit.Some? && matches && permit.value.parameterChecks == 1
    {
      if permit.None? || !matches {
        return Some(UnexpectedRequest);
      }
      permit := Some(permit.value.(parameterChecks := permit.value.parameterChecks + 1));
      raised := if permit.value.parameterChecks == 1 then None else Some(ExtraAttempt);
    }

    /** `_send` */
    method Send(endpointOk: bool, journalOk: bool) returns (raised: Option<LocalCode>)
      modifies this
      ensures S() == OnSend(old(S()), endpointOk, journalOk)
      ensures raised.None? ==> permit.Some? && permit.value.approved == old(permit).value.approved + 1
    {
      if permit.None? || halted {
        return Some(UnexpectedSend);
      }
      permit := Some(permit.value.(sends := permit.value.sends + 1));
      if permit.value.sends != 1 || permit.value.parameterChecks != 1 {
        permit := Some(permit.value.(blocked := permit.value.blocked + 1));
        extraRequests := extraRequests + [BlockedExtra(permit.value.stage)];
        Record(BlockedEvent, journalOk);
        Fail();
        return Some(if journalOk then ExtraSend else HookPublicationFailed);
      }
      if !endpointOk {
        return Some(EndpointInvalid);
      }
      permit := Some(permit.value.(approved := permit.value.approved + 1));
      raised := None;
    }

    /** `record_extra_request` */
    method RecordExtraRequest(o: Observation, journalOk: bool) returns (raised: Option<LocalCode>)
      modifies this
      ensures S() == RecordExtra(config, old(S()), o, journalOk)
      ensures raised.None? ==> old(active) && ValidReference(old(S()), o) && journalOk
    {
      if !active {
        return Some(ExtraEvidenceInvalid);
      }
      halted := true;
      if !(Model(o.stage) && o.delivery != No && o.hashValid && o.hash !in extraEvidence) {
        unestablished := unestablished + {UnidentifiedModelRequest};
        return Some(ExtraEvidenceInvalid);
      }
      extraEvidence := extraEvidence + {o.hash};
      Observe(o);
      Record(ExtraEvent, journalOk);
      raised := if journalOk then None else Some(HookPublicationFailed);
    }

    /** The entry and the exposure of an observed request. */
    method Observe(o: Observation)
      modifies this`exposureHaiku, this`exposureTitan, this`extraRequests, this`unestablished, this`coverageViolated
      ensures Ledger() == ObserveExtra(config, old(Ledger()), o)
    {
      var provider := ProviderOf(o.stage);
      var valid := AcceptedUsage(o);
      var actual := None;
      if valid.Some? && o.priced {
        actual := Some(Charge(valid.value, PriceOf(config, provider)));
      }
      extraRequests := extraRequests + [Extra(o.stage, Some(provider), o.delivery, valid, actual, Some(o.hash))];
      if actual.Some? {
        Spend(provider, actual.value);
        if actual.value > 0 {
          coverageViolated := true;
        }
      }
      if actual.None? || o.delivery == Unknown {
        unestablished := unestablished + {OfStage(o.stage)};
      }
    }

    /** The callbacks the client makes while a call is out, whatever it does with their errors. */
    method RunClient(script: seq<Callback>)
      modifies this
      ensures S() == OnCallbacks(config, old(S()), script)
    {
      ghost var start := S();
      assert script[0..] == script;
      for i := 0 to |script|
        invariant OnCallbacks(config, start, script) == OnCallbacks(config, S(), script[i..])
      {
        assert script[i..][0] == script[i] && script[i..][1..] == script[i + 1..];
        match script[i] {
          case ParametersCallback(matches) => { var _ := Parameters(matches); }
          case SendCallback(endpointOk, journalOk) => { var _ := Send(endpointOk, journalOk); }
          case ExtraCallback(o, journalOk) => { var _ := RecordExtraRequest(o, journalOk); }
        }
      }
    }

    /** The entry and the exposure of a returned usage. */
    method EnterUsage(stage: Stage, u: Usage, amount: nat, attributable: bool) returns (exceeded: bool)
      requires stage in attempts && amount == Reservation(config, stage)
      modifies this`exposureHaiku, this`exposureTitan, this`attempts, this`coverageViolated
      ensures Ledger() == Settle(config, old(Ledger()), stage, u, attributable)
      ensures exceeded == Exceeded(config, stage, u)
    {
      var provider := ProviderOf(stage);
      var actual := Charge(u, PriceOf(config, provider));
      exceeded := u.input > PriceOf(config, provider).inputBound || u.output > OutputBound(config, stage)
        || actual > amount;
      attempts := attempts[stage := attempts[stage].(
        usage := Some(u), charge := Some(actual), settled := attributable,
        attribution := Some(if attributable then AuthorizedRequest else UnattributedResponse),
        hold := if attributable then 0 else amount)];
      Spend(provider, if attributable then actual - amount else actual);
      if exceeded {
        coverageViolated := true;
      }
    }

    /** `_returned_usage` */
    method ReturnedUsage(stage: Stage, u: Usage, amount: nat, attributable: bool, journalOk: bool)
      returns (exceeded: bool)
      requires stage in attempts && amount == Reservation(config, stage)
      modifies this
      ensures S() == Journal(old(S()).(account := Settle(config, old(Ledger()), stage, u, attributable)),
                             UsageEvent(stage, exceeded), journalOk)
      ensures exceeded == Exceeded(config, stage, u)
    {
      exceeded := EnterUsage(stage, u, amount, attributable);
      Record(UsageEvent(stage, exceeded), journalOk);
    }

    /** What follows the return of the client. */
    method HandleResponse(call: Call, response: Response, amount: nat) returns (code: Option<Code>)
      requires permit.Some? && call.stage in attempts && amount == Reservation(config, call.stage)
      requires call.outcome == Returns(response)
      modifies this
      ensures S() == Conclude(config, old(S()), call).0 && code == Conclude(config, old(S()), call).1
    {
      var valid := CountValid(permit.value, response.retries);
      var known :=
        if response.retries.Some? && response.retries.value >= 0 then Some(response.retries.value as nat) else None;
      attempts := attempts[call.stage := attempts[call.stage].(
        retries := known, delivery := if valid then Yes else Unknown)];
      if !valid {
        unestablished := unestablished + {OfStage(call.stage)};
      }
      if response.decoding.DecodingStops? {
        Fail();
        return Some(Raised(response.decoding.code));
      }
      if response.decoding.DecodingRaises? {
        Fail();
        return Some(UncertainProviderOutcome);
      }
      code := JudgeResponse(call, response, amount, valid);
    }

    method JudgeResponse(call: Call, response: Response, amount: nat, valid: bool) returns (code: Option<Code>)
      requires call.stage in attempts && amount == Reservation(config, call.stage)
      modifies this
      ensures S() == Judge(config, old(S()), call, response, valid).0
      ensures code == Judge(config, old(S()), call, response, valid).1
    {
      var exceeded := false;
      if Model(call.stage) {
        if response.usage.None? {
          Fail();
          return Some(UsageInvalid);
        }
        exceeded := ReturnedUsage(call.stage, UsageOf(call.stage, response.usage.value), amount, valid,
          call.usageJournalOk);
        if !call.usageJournalOk {
          return Some(EvidencePublicationFailed);
        }
      }
      if !valid {
        Fail();
        return Some(AttemptCountInvalid);
      }
      if halted {
        return Some(ExtraRequestObserved);
      }
      if exceeded {
        Fail();
        return Some(UsageOverrun);
      }
      if Model(call.stage) && ProviderOf(call.stage) == Haiku && !response.outputOk {
        Fail();
        return Some(ModelOutputInvalid);
      }
      position := position + 1;
      code := None;
    }

    /** `invoke` */
    method Invoke(call: Call) returns (code: Option<Code>)
      modifies this
      ensures S() == Policy.Invoke(config, old(S()), call).0 && code == Policy.Invoke(config, old(S()), call).1
    {
      var stage := call.stage;
      if !active || halted || position >= STAGES || StageAt(position) != stage {
        return Some(ChainOrderInvalid);
      }
      if call.precheck != Passes {
        return Some(Refused(call.precheck));
      }
      var amount := Reservation(config, stage);
      if Model(stage) {
        var provider := ProviderOf(stage);
        var spent := if provider == Haiku then exposureHaiku else exposureTitan;
        if spent + amount > CapOf(config, provider) || exposureHaiku + exposureTitan + amount > config.capTotal {
          return Some(ReservationExhausted);
        }
        Spend(provider, amount);
      }
      attempts := attempts[stage := FreshAttempt(amount)];
      Record(AttemptEvent(stage, amount), call.attemptJournalOk);
      if !call.attemptJournalOk {
        return Some(EvidencePublicationFailed);
      }
      code := Transmit(call, amount);
    }

    /** The part of `invoke` in which the client is out. */
    method Transmit(call: Call, amount: nat) returns (code: Option<Code>)
      requires call.stage in attempts && amount == Reservation(config, call.stage)
      modifies this
      ensures S() == Dispatch(config, old(S()), call).0 && code == Dispatch(config, old(S()), call).1
    {
      permit := Some(Permit(call.stage, 0, 0, 0, 0));
      ghost var out := S();
      CallbacksKeepCall(config, out, call.script);
      RunClient(call.script);
      ConcludeKeepsCall(config, S(), call);
      match call.outcome {
        case RaisesStop(local) =>
          Fail();
          code := Some(Raised(local));
        case RaisesOther =>
          Fail();
          code := Some(UncertainProviderOutcome);
        case Returns(response) =>
          code := HandleResponse(call, response, amount);
      }
      var sent := permit.value;
      attempts := attempts[call.stage := attempts[call.stage].(
        sends := Some(SendChecks(sent.sends, sent.approved, sent.blocked)))];
      permit := None;
    }

    /** Whatever the code under an active policy does with the object, in any order. */
    method Perform(ops: seq<Op>)
      modifies this
      ensures S() == Steps(config, old(S()), ops)
    {
      for i := 0 to |ops|
        invariant Steps(config, S(), ops[i..]) == Steps(config, old(S()), ops)
      {
        assert ops[i..][0] == ops[i] && ops[i..][1..] == ops[i + 1..];
        match ops[i] {
          case InvokeOp(call) => { var _ := Invoke(call); }
          case ExtraOp(observation, journalOk) => { var _ := RecordExtraRequest(observation, journalOk); }
          case FailOp => Fail();
        }
      }
      assert ops[|ops|..] == [];
    }

    /** Holds and charges of the model attempts. */
    method AttemptTotals() returns (holdsHaiku: nat, holdsTitan: nat, knownHaiku: nat, knownTitan: nat)
      ensures holdsHaiku == Holds(attempts, Haiku) && holdsTitan == Holds(attempts, Titan)
      ensures knownHaiku == AttemptCharges(attempts, Haiku) && knownTitan == AttemptCharges(attempts, Titan)
    {
      holdsHaiku, holdsTitan, knownHaiku, knownTitan := 0, 0, 0, 0;
      for i := 0 to STAGES
        invariant holdsHaiku
          == (if i > 0 then HoldAt(attempts, Router) else 0) + (if i > 4 then HoldAt(attempts, Generation) else 0)
        invariant holdsTitan == if i > 3 then HoldAt(attempts, Embedding) else 0
        invariant knownHaiku
          == (if i > 0 then ChargeAt(attempts, Router) else 0) + (if i > 4 then ChargeAt(attempts, Generation) else 0)
        invariant knownTitan == if i > 3 then ChargeAt(attempts, Embedding) else 0
      {
        var stage := StageAt(i);
        if stage !in attempts || !Model(stage) {
          continue;
        }
        var attempt := attempts[stage];
        if ProviderOf(stage) == Haiku {
          holdsHaiku := holdsHaiku + attempt.hold;
          knownHaiku := knownHaiku + attempt.charge.GetOr(0);
        } else {
          holdsTitan := holdsTitan + attempt.hold;
          knownTitan := knownTitan + attempt.charge.GetOr(0);
        }
      }
    }

    /** Charges of the extra requests, added to what is known already. */
    method ExtraTotals(haiku: nat, titan: nat) returns (knownHaiku: nat, knownTitan: nat)
      ensures knownHaiku == haiku + ExtraCharges(extraRequests, Haiku)
      ensures knownTitan == titan + ExtraCharges(extraRequests, Titan)
    {
      knownHaiku, knownTitan := haiku, titan;
      for i := 0 to |extraRequests|
        invariant knownHaiku == haiku + ExtraCharges(extraRequests[..i], Haiku)
        invariant knownTitan == titan + ExtraCharges(extraRequests[..i], Titan)
      {
        var extra := extraRequests[i];
        assert extraRequests[..i + 1] == extraRequests[..i] + [extra];
        ExtraAppended(extraRequests[..i], extra, Haiku);
        ExtraAppended(extraRequests[..i], extra, Titan);
        if extra.charge.Some? && extra.provider == Some(Haiku) {
          knownHaiku := knownHaiku + extra.charge.value;
        }
        if extra.charge.Some? && extra.provider == Some(Titan) {
          knownTitan := knownTitan + extra.charge.value;
        }
      }
      assert extraRequests[..|extraRequests|] == extraRequests;
    }

    /** `accounting` */
    method Report(compact: bool) returns (r: Report)
      ensures r == ReportOf(config, Ledger(), compact)
    {
      var holdsHaiku, holdsTitan, knownHaiku, knownTitan := AttemptTotals();
      knownHaiku, knownTitan := ExtraTotals(knownHaiku, knownTitan);
      var ceiling := unestablished == {} && !coverageViolated
        && exposureHaiku <= config.capHaiku && exposureTitan <= config.capTitan
        && exposureHaiku + exposureTitan <= config.capTotal;
      var coverage := if coverageViolated then Violated else if unestablished != {} then Unestablished
        else WithinRecordedReservations;
      r := Accounting.Report.Report(knownHaiku, knownTitan, holdsHaiku, holdsTitan, unestablished == {}, ceiling,
        coverage, MarkList(unestablished), |extraRequests|, ExtrasDigest(extraRequests),
        if compact then None else Some(extraRequests));
    }
  }

  /** What the report of a closed run accounts for. */
  ghost predicate Explains(c: Config, r: Report, haiku: int, titan: int) {
    && haiku == r.holdsHaiku + r.knownHaiku && titan == r.holdsTitan + r.knownTitan
    && (r.ceilingEstablished <==> r.boundEstablished && r.coverage != Violated)
    && (haiku > c.capHaiku || titan > c.capTitan || haiku + titan > c.capTotal ==>
          r.coverage == Violated || !r.boundEstablished)
  }

  lemma RunIsExplained(c: Config, ops: seq<Op>, a: Account, compact: bool)
    requires ValidConfig(c) && a == RunOf(c, ops).account
    ensures Explains(c, ReportOf(c, a, compact), a.haiku, a.titan)
  {
    RunsAreReachable(c, ops);
    ReportExplainsExposure(c, RunOf(c, ops), compact);
  }

  lemma ClaimIsActivation(c: Config)
    ensures Journal(Initial(c).(active := true), ClaimEvent, true) == Activated(c)
  {
    assert [] + [ClaimEvent] == [ClaimEvent];
  }

  /** One activation of a new policy object, from its claim to its report: the object goes through the specified run,
      and the report accounts for every unit it spent. */
  method RunToReport(c: Config, ops: seq<Op>, end: BodyEnd, completeOk: bool, stoppedOk: bool, compact: bool)
    returns (r: Report, stop: Option<Stop>, haiku: int, titan: int)
    requires ValidConfig(c)
    ensures stop == CloseRun(RunOf(c, ops), end, completeOk, stoppedOk).1
    ensures r == ReportOf(c, RunOf(c, ops).account, compact)
    ensures haiku == RunOf(c, ops).account.haiku && titan == RunOf(c, ops).account.titan
    ensures Explains(c, r, haiku, titan)
  {
    var policy := new SmokePolicy(c);
    var _ := policy.Activate(true);
    ClaimIsActivation(c);
    policy.Perform(ops);
    ghost var a := policy.Ledger();
    stop := policy.Close(end, completeOk, stoppedOk);
    assert policy.Ledger() == a;
    r := policy.Report(compact);
    haiku, titan := policy.exposureHaiku, policy.exposureTitan;
    RunIsExplained(c, ops, a, compact);
  }
}
