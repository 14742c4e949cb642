/** What the record of a run says of requests nobody authorised, and of spend beyond what was reserved. */
module ExtraRequests {
  import opened Results
  import opened Policy
  import opened PolicyBooks
  import opened CallOutcome

  // ---- the invariant

  /** An answered stage whose usage is over one of its token bounds. */
  predicate Overspent(c: Config, stage: Stage, a: Attempt) {
    a.usage.Some? && !WithinTokens(c, stage, a.usage.value)
  }

  ghost predicate SomeOverspent(c: Config, attempts: map<Stage, Attempt>) {
    exists stage :: stage in attempts && Overspent(c, stage, attempts[stage])
  }

  ghost predicate SomeCharged(extras: seq<Extra>) {
    exists i: nat :: i < |extras| && extras[i].charge.GetOr(0) > 0
  }

  /** No evidence hash is entered twice. */
  ghost predicate EnteredOnce(extras: seq<Extra>) {
    forall i: nat, j: nat | i < j < |extras| && extras[i].evidence.Some? :: extras[i].evidence != extras[j].evidence
  }

  ghost predicate Has(extras: seq<Extra>, hash: string) {
    exists i: nat :: i < |extras| && extras[i].evidence == Some(hash)
  }

  /** The evidence hashes are those of the requests that were delivered or may have been, each entered once; and
      coverage is violated exactly when some usage was over its bounds or an extra request cost something. */
  ghost predicate Told(c: Config, a: Account, evidence: set<string>) {
    && (forall i: nat | i < |a.extras| :: a.extras[i].delivery == No <==> a.extras[i].evidence.None?)
    && EnteredOnce(a.extras) && (forall hash :: hash in evidence <==> Has(a.extras, hash))
    && (a.violated <==> SomeOverspent(c, a.attempts) || SomeCharged(a.extras))
  }

  // ---- each step keeps it

  lemma AppendedTold(c: Config, a: Account, b: Account, evidence: set<string>, e: Extra)
    requires Told(c, a, evidence) && b.extras == a.extras + [e] && b.attempts == a.attempts
    requires e.delivery == No <==> e.evidence.None?
    requires e.evidence.Some? ==> e.evidence.value !in evidence
    requires b.violated <==> a.violated || e.charge.GetOr(0) > 0
    ensures Told(c, b, if e.evidence.Some? then evidence + {e.evidence.value} else evidence)
  {
    var n := |a.extras|;
    assert forall i: nat | i < n :: b.extras[i] == a.extras[i];
    forall hash ensures Has(b.extras, hash) <==> Has(a.extras, hash) || e.evidence == Some(hash) {
      if e.evidence == Some(hash) {
        assert b.extras[n].evidence == Some(hash);
      }
      if i: nat :| i < n && a.extras[i].evidence == Some(hash) {
        assert b.extras[i].evidence == Some(hash);
      }
    }
    forall i: nat | i < n && a.extras[i].evidence.Some? ensures a.extras[i].evidence != e.evidence {
      assert Has(a.extras, a.extras[i].evidence.value);
    }
    ChargedAppend(a.extras, e);
  }

  lemma ChargedAppend(extras: seq<Extra>, e: Extra)
    ensures SomeCharged(extras + [e]) <==> SomeCharged(extras) || e.charge.GetOr(0) > 0
  {
    var all := extras + [e];
    if e.charge.GetOr(0) > 0 {
      assert all[|extras|].charge.GetOr(0) > 0;
    }
    if i: nat :| i < |extras| && extras[i].charge.GetOr(0) > 0 {
      assert all[i].charge.GetOr(0) > 0;
    }
  }

  /** Entering an attempt tells nothing new unless its usage changes. */
  lemma EnteredTold(c: Config, a: Account, b: Account, evidence: set<string>, stage: Stage)
    requires Told(c, a, evidence) && b.extras == a.extras
    requires stage in b.attempts && b.attempts == a.attempts[stage := b.attempts[stage]]
    requires stage in a.attempts ==>
      !Overspent(c, stage, a.attempts[stage]) || b.attempts[stage].usage == a.attempts[stage].usage
    requires b.violated <==> a.violated || Overspent(c, stage, b.attempts[stage])
    ensures Told(c, b, evidence)
  {
    if SomeOverspent(c, a.attempts) {
      var other :| other in a.attempts && Overspent(c, other, a.attempts[other]);
      assert other in b.attempts && Overspent(c, other, b.attempts[other]);
    }
    if Overspent(c, stage, b.attempts[stage]) {
      assert SomeOverspent(c, b.attempts);
    }
    if SomeOverspent(c, b.attempts) {
      var other :| other in b.attempts && Overspent(c, other, b.attempts[other]);
      assert other != stage ==> other in a.attempts && Overspent(c, other, a.attempts[other]);
    }
  }

  lemma RecordExtraTold(c: Config, s: State, o: Observation, journalOk: bool)
    requires Told(c, s.account, s.evidence)
    ensures Told(c, RecordExtra(c, s, o, journalOk).account, RecordExtra(c, s, o, journalOk).evidence)
  {
    if s.active && ValidReference(s, o) {
      AppendedTold(c, s.account, ObserveExtra(c, s.account, o), s.evidence, ExtraOf(c, o));
    }
  }

  lemma CallbackTold(c: Config, s: State, e: Callback)
    requires Told(c, s.account, s.evidence)
    ensures Told(c, OnCallback(c, s, e).account, OnCallback(c, s, e).evidence)
  {
    match e
    case ParametersCallback(_) =>
    case SendCallback(_, _) =>
      if s.permit.Some? {
        var extra := BlockedExtra(s.permit.value.stage);
        AppendedTold(c, s.account, AppendExtra(s.account, extra), s.evidence, extra);
      }
    case ExtraCallback(o, journalOk) =>
      RecordExtraTold(c, s, o, journalOk);
  }

  lemma {:induction false} CallbacksTold(c: Config, s: State, script: seq<Callback>)
    requires Told(c, s.account, s.evidence)
    ensures Told(c, OnCallbacks(c, s, script).account, OnCallbacks(c, s, script).evidence)
    decreases |script|
  {
    if script != [] {
      CallbackTold(c, s, script[0]);
      CallbacksTold(c, OnCallback(c, s, script[0]), script[1..]);
    }
  }

  lemma ConcludedTold(c: Config, a: Account, evidence: set<string>, call: Call, valid: bool)
    requires Told(c, a, evidence) && call.stage in a.attempts
    requires a.attempts[call.stage] == FreshAttempt(Reservation(c, call.stage))
    ensures call.stage in ConcludedAccount(c, a, call, valid).attempts
    ensures Told(c, ConcludedAccount(c, a, call, valid), evidence)
  {
    if call.outcome.Returns? {
      var response := call.outcome.response;
      var received := Received(a, call.stage, response.retries, valid);
      EnteredTold(c, a, received, evidence, call.stage);
      if Model(call.stage) && response.decoding.Decoded? && response.usage.Some? {
        var u := UsageOf(call.stage, response.usage.value);
        var settled := Settle(c, received, call.stage, u, valid);
        OverspentIsExceeded(c, call.stage, u, settled.attempts[call.stage]);
        EnteredTold(c, received, settled, evidence, call.stage);
      }
    }
  }

  lemma OverspentIsExceeded(c: Config, stage: Stage, u: Usage, a: Attempt)
    requires Model(stage) && a.usage == Some(u)
    ensures Overspent(c, stage, a) <==> Exceeded(c, stage, u)
  {
    WithinTokensExactly(c, stage, u);
  }

  lemma ConcludeKeepsEvidence(c: Config, s: State, call: Call)
    requires s.permit.Some? && call.stage in s.account.attempts
    ensures Conclude(c, s, call).0.evidence == s.evidence && Conclude(c, s, call).0.permit == s.permit
  {
    ConcludeKeepsCall(c, s, call);
    if call.outcome.Returns? && call.outcome.response.decoding.Decoded? {
      var response := call.outcome.response;
      var valid := CountValid(s.permit.value, response.retries);
      var received := s.(account := Received(s.account, call.stage, response.retries, valid));
      assert Judge(c, received, call, response, valid).0.evidence == s.evidence;
    }
  }

  lemma WithdrawTold(c: Config, s: State, stage: Stage)
    requires Told(c, s.account, s.evidence) && s.permit.Some? && stage in s.account.attempts
    ensures Told(c, Withdraw(s, stage).account, Withdraw(s, stage).evidence)
  {
    assert Overspent(c, stage, s.account.attempts[stage]) ==> SomeOverspent(c, s.account.attempts);
    EnteredTold(c, s.account, Withdraw(s, stage).account, s.evidence, stage);
  }

  lemma DispatchTold(c: Config, s: State, call: Call)
    requires Told(c, s.account, s.evidence) && call.stage in s.account.attempts
    requires s.account.attempts[call.stage] == FreshAttempt(Reservation(c, call.stage))
    ensures Told(c, Dispatch(c, s, call).0.account, Dispatch(c, s, call).0.evidence)
  {
    var out := s.(permit := Some(Permit(call.stage, 0, 0, 0, 0)));
    CallbacksKeepCall(c, out, call.script);
    CallbacksTold(c, out, call.script);
    var back := OnCallbacks(c, out, call.script);
    var valid := call.outcome.Returns? && CountValid(back.permit.value, call.outcome.response.retries);
    ConcludeAccount(c, back, call, valid);
    ConcludedTold(c, back.account, back.evidence, call, valid);
    ConcludeKeepsEvidence(c, back, call);
    WithdrawTold(c, Conclude(c, back, call).0, call.stage);
  }

  lemma InvokeTold(c: Config, s: State, call: Call)
    requires Sound(c, s) && Told(c, s.account, s.evidence)
    ensures Told(c, Invoke(c, s, call).0.account, Invoke(c, s, call).0.evidence)
  {
    if Permitted(s, call.stage) && call.precheck == Passes && Fits(c, s.account, call.stage) {
      OrdinalNext(s, call.stage);
      var reserved := s.(account := Reserve(c, s.account, call.stage));
      EnteredTold(c, s.account, reserved.account, s.evidence, call.stage);
      if call.attemptJournalOk {
        DispatchTold(c, Journal(reserved, AttemptEvent(call.stage, Reservation(c, call.stage)), true), call);
      }
    }
  }

  lemma StepTold(c: Config, s: State, op: Op)
    requires Sound(c, s) && Told(c, s.account, s.evidence)
    ensures Told(c, Step(c, s, op).account, Step(c, s, op).evidence)
  {
    match op
    case InvokeOp(call) => InvokeTold(c, s, call);
    case ExtraOp(o, journalOk) => RecordExtraTold(c, s, o, journalOk);
    case FailOp =>
  }

  lemma {:induction false} TraceTold(c: Config, ops: seq<Op>, trace: seq<State>, n: nat)
    requires ValidConfig(c) && IsTrace(c, ops, trace) && n <= |ops|
    ensures Told(c, trace[n].account, trace[n].evidence)
  {
    if n > 0 {
      TraceTold(c, ops, trace, n - 1);
      TraceIsSound(c, ops, trace, n - 1);
      assert StepAt(c, ops, trace, n - 1);
      StepTold(c, trace[n - 1], ops[n - 1]);
    }
  }

  /** In every state a run can reach: no evidence hash is charged twice, what was delivered without authority is exactly
      what has evidence, and coverage is violated exactly on a real overrun or a positive unauthorised charge. */
  lemma ReachableTold(c: Config, s: State)
    requires ValidConfig(c) && Reachable(c, s)
    ensures Told(c, s.account, s.evidence)
  {
    var ops, trace :| IsTrace(c, ops, trace) && s == trace[|ops|];
    TraceTold(c, ops, trace, |ops|);
  }

  // ---- what an observation enters

  /** The entry an observed request makes: priced only when its price is pinned and its usage is valid. */
  function EntryFor(c: Config, o: Observation): Extra {
    var valid := o.usage.ReportedUsage? && (o.stage == Embedding ==> o.usage.usage.output == 0);
    var price := if o.stage == Embedding then c.titan else c.haiku;
    Extra(o.stage, Some(if o.stage == Embedding then Titan else Haiku), o.delivery,
          if valid then Some(o.usage.usage) else None,
          if valid && o.priced then Some(o.usage.usage.input * price.input + o.usage.usage.output * price.output)
          else None, Some(o.hash))
  }

  /** A request of a model stage that was or may have been delivered, under a well-formed hash nobody entered before. */
  ghost predicate Enters(s: State, o: Observation) {
    s.active && Model(o.stage) && o.delivery != No && o.hashValid && !Has(s.account.extras, o.hash)
  }

  /** An observation enters exactly its own request and charge, or nothing but a doubt; either way it halts the run. */
  lemma ObservedExactly(c: Config, s: State, o: Observation, journalOk: bool)
    requires Told(c, s.account, s.evidence) && s.active
    ensures var t, e := RecordExtra(c, s, o, journalOk), EntryFor(c, o);
      && t.halted && t.account.attempts == s.account.attempts && t.permit == s.permit && t.position == s.position
      && (Enters(s, o) ==>
            && t.account.extras == s.account.extras + [e]
            && t.account.haiku == s.account.haiku + (if o.stage != Embedding then e.charge.GetOr(0) else 0)
            && t.account.titan == s.account.titan + (if o.stage == Embedding then e.charge.GetOr(0) else 0)
            && t.account.marks == s.account.marks
                 + (if e.charge.None? || o.delivery == Unknown then {OfStage(o.stage)} else {}))
      && (!Enters(s, o) ==> t.account == s.account.(marks := s.account.marks + {UnidentifiedModelRequest}))
  {
    assert Enters(s, o) <==> ValidReference(s, o);
    if Enters(s, o) {
      assert ExtraOf(c, o) == EntryFor(c, o);
    }
  }
}
