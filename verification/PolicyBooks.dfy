/** What every reachable state of the policy satisfies. */
module PolicyBooks {
  import opened Results
  import opened Policy

  // ---- the totals of `accounting`

  function HoldAt(attempts: map<Stage, Attempt>, stage: Stage): nat {
    if stage in attempts then attempts[stage].hold else 0
  }

  function ChargeAt(attempts: map<Stage, Attempt>, stage: Stage): nat {
    if stage in attempts && attempts[stage].charge.Some? then attempts[stage].charge.value else 0
  }

  /** Retained holds of one provider, over its model stages. */
  function Holds(attempts: map<Stage, Attempt>, p: Provider): nat {
    if p == Titan then HoldAt(attempts, Embedding) else HoldAt(attempts, Router) + HoldAt(attempts, Generation)
  }

  function AttemptCharges(attempts: map<Stage, Attempt>, p: Provider): nat {
    if p == Titan then ChargeAt(attempts, Embedding) else ChargeAt(attempts, Router) + ChargeAt(attempts, Generation)
  }

  function ExtraCharges(extras: seq<Extra>, p: Provider): nat {
    if extras == [] then 0 else
      var last := extras[|extras| - 1];
      ExtraCharges(extras[..|extras| - 1], p)
      + (if last.charge.Some? && last.provider == Some(p) then last.charge.value else 0)
  }

  /** Known charges of one provider, authorised or not. */
  function Known(a: Account, p: Provider): nat {
    AttemptCharges(a.attempts, p) + ExtraCharges(a.extras, p)
  }

  lemma ExtraAppended(extras: seq<Extra>, extra: Extra, p: Provider)
    ensures ExtraCharges(extras + [extra], p)
         == ExtraCharges(extras, p)
         + (if extra.charge.Some? && extra.provider == Some(p) then extra.charge.value else 0)
  {
    assert (extras + [extra])[..|extras|] == extras;
  }

  // ---- the invariant

  /** Exposure is exactly what is held plus what is known to be charged. */
  ghost predicate Conserved(a: Account) {
    && a.haiku == Holds(a.attempts, Haiku) + Known(a, Haiku)
    && a.titan == Holds(a.attempts, Titan) + Known(a, Titan)
  }

  ghost predicate AttemptOk(c: Config, marks: set<Mark>, violated: bool, stage: Stage, a: Attempt) {
    && a.reservation == Reservation(c, stage)
    && a.hold == (if a.settled then 0 else a.reservation)
    && (a.charge.Some? <==> a.usage.Some?) && (a.charge.Some? <==> a.attribution.Some?)
    && (a.charge.Some? ==> Model(stage) && a.charge.value == Charge(a.usage.value, PriceOf(c, ProviderOf(stage))))
    && (a.settled <==> a.attribution == Some(AuthorizedRequest))
    && (a.attribution == Some(UnattributedResponse) ==> OfStage(stage) in marks)
    && (a.charge.Some? && a.charge.value > a.reservation ==> violated)
    && (a.usage.Some? && stage == Embedding ==> a.usage.value.output == 0)
  }

  ghost predicate AttemptsOk(c: Config, a: Account) {
    forall stage | stage in a.attempts :: AttemptOk(c, a.marks, a.violated, stage, a.attempts[stage])
  }

  ghost predicate ExtraOk(marks: set<Mark>, violated: bool, e: Extra) {
    && (e.delivery == No ==> e.usage.None? && e.charge.None?)
    && (e.charge.Some? ==> e.provider == Some(ProviderOf(e.stage)) && e.usage.Some?)
    && (e.charge.Some? && e.charge.value > 0 ==> violated)
    && (e.delivery != No ==> Model(e.stage))
    && (e.delivery == Unknown || (e.delivery == Yes && e.charge.None?) ==> OfStage(e.stage) in marks)
  }

  ghost predicate ExtrasOk(a: Account) {
    forall e | e in a.extras :: ExtraOk(a.marks, a.violated, e)
  }

  predicate WithinCaps(c: Config, a: Account) {
    && a.haiku <= c.capHaiku && a.titan <= c.capTitan && a.haiku + a.titan <= c.capTotal
  }

  /** Spend above a cap is possible only with violated coverage or an unestablished stage. */
  ghost predicate Bounded(c: Config, a: Account) {
    !a.violated && a.marks == {} ==> WithinCaps(c, a)
  }

  ghost predicate Books(c: Config, a: Account) {
    Conserved(a) && AttemptsOk(c, a) && ExtrasOk(a) && Bounded(c, a)
  }

  /** A journalled token overrun comes with violated coverage. */
  ghost predicate Journalled(s: State) {
    forall e | e in s.journal :: e.UsageEvent? && e.overrun ==> s.account.violated
  }

  /** Until the run is halted nothing suspicious was recorded and every passed stage settled
      at or below its reservation. */
  ghost predicate OnTrack(s: State) {
    !s.halted ==>
      && s.account.marks == {} && !s.account.violated && s.account.extras == []
      && (forall stage :: stage in s.account.attempts <==> OrdinalOf(stage) < s.position)
      && (forall stage | stage in s.account.attempts && Model(stage) :: SettledWithin(s.account.attempts[stage]))
  }

  ghost predicate SettledWithin(a: Attempt) {
    a.settled && a.charge.Some? && a.charge.value <= a.reservation
  }

  ghost predicate Sound(c: Config, s: State) {
    && Books(c, s.account) && Journalled(s) && OnTrack(s) && s.permit.None? && s.position <= STAGES
  }

  // ---- each primitive keeps the books

  lemma GrowKeepsAttempts(c: Config, a: Account, b: Account)
    requires AttemptsOk(c, a) && a.attempts == b.attempts && a.marks <= b.marks && (a.violated ==> b.violated)
    ensures AttemptsOk(c, b)
  {
    forall stage | stage in b.attempts ensures AttemptOk(c, b.marks, b.violated, stage, b.attempts[stage]) {
      assert AttemptOk(c, a.marks, a.violated, stage, a.attempts[stage]);
    }
  }

  lemma EnterKeepsAttempts(c: Config, a: Account, b: Account, stage: Stage)
    requires AttemptsOk(c, a) && a.marks <= b.marks && (a.violated ==> b.violated)
    requires stage in b.attempts && b.attempts == a.attempts[stage := b.attempts[stage]]
    requires AttemptOk(c, b.marks, b.violated, stage, b.attempts[stage])
    ensures AttemptsOk(c, b)
  {
    forall other | other in b.attempts ensures AttemptOk(c, b.marks, b.violated, other, b.attempts[other]) {
      if other != stage {
        assert AttemptOk(c, a.marks, a.violated, other, a.attempts[other]);
      }
    }
  }

  lemma GrowKeepsExtras(a: Account, b: Account)
    requires ExtrasOk(a) && a.marks <= b.marks && (a.violated ==> b.violated)
    requires b.extras == a.extras || exists e :: b.extras == a.extras + [e] && ExtraOk(b.marks, b.violated, e)
    ensures ExtrasOk(b)
  {
    forall e | e in b.extras ensures ExtraOk(b.marks, b.violated, e) {
      if e in a.extras { assert ExtraOk(a.marks, a.violated, e); }
    }
  }

  lemma ReserveKeepsBooks(c: Config, a: Account, stage: Stage)
    requires Books(c, a) && stage !in a.attempts && Fits(c, a, stage)
    ensures Books(c, Reserve(c, a, stage))
  {
    var b := Reserve(c, a, stage);
    assert AttemptOk(c, b.marks, b.violated, stage, FreshAttempt(Reservation(c, stage)));
    EnterKeepsAttempts(c, a, b, stage);
    GrowKeepsExtras(a, b);
    TotalsOfEnter(a.attempts, stage, FreshAttempt(Reservation(c, stage)));
  }

  /** Replacing one attempt changes the totals of its own provider only. */
  lemma TotalsOfEnter(attempts: map<Stage, Attempt>, stage: Stage, attempt: Attempt)
    ensures forall p ::
      && Holds(attempts[stage := attempt], p) - Holds(attempts, p)
         == (if Model(stage) && p == ProviderOf(stage) then attempt.hold - HoldAt(attempts, stage) else 0)
      && AttemptCharges(attempts[stage := attempt], p) - AttemptCharges(attempts, p)
         == (if Model(stage) && p == ProviderOf(stage) then attempt.charge.GetOr(0) - ChargeAt(attempts, stage) else 0)
  {}

  lemma ObserveConserves(c: Config, a: Account, o: Observation)
    requires Conserved(a)
    ensures Conserved(ObserveExtra(c, a, o))
  {
    ExtraAppended(a.extras, ExtraOf(c, o), Haiku);
    ExtraAppended(a.extras, ExtraOf(c, o), Titan);
  }

  lemma ObserveBounded(c: Config, a: Account, o: Observation)
    requires Bounded(c, a)
    ensures Bounded(c, ObserveExtra(c, a, o))
  {}

  lemma ObserveKeepsBooks(c: Config, a: Account, o: Observation)
    requires Books(c, a) && Model(o.stage) && o.delivery != No
    ensures Books(c, ObserveExtra(c, a, o))
  {
    ObserveConserves(c, a, o);
    ObserveBounded(c, a, o);
    ObserveGrows(c, a, o, ObserveExtra(c, a, o));
    ObservedIsOk(c, a, o);
    GrowKeepsAttempts(c, a, ObserveExtra(c, a, o));
    GrowKeepsExtras(a, ObserveExtra(c, a, o));
  }

  lemma ObserveGrows(c: Config, a: Account, o: Observation, b: Account)
    requires b == ObserveExtra(c, a, o)
    ensures b.attempts == a.attempts && a.marks <= b.marks && (a.violated ==> b.violated)
    ensures b.extras == a.extras + [ExtraOf(c, o)]
  {}

  lemma ObservedIsOk(c: Config, a: Account, o: Observation)
    requires Model(o.stage) && o.delivery != No
    ensures ExtraOk(ObserveExtra(c, a, o).marks, ObserveExtra(c, a, o).violated, ExtraOf(c, o))
  {}

  lemma BlockedKeepsBooks(c: Config, a: Account, stage: Stage)
    requires Books(c, a)
    ensures Books(c, AppendExtra(a, BlockedExtra(stage)))
  {
    var b := AppendExtra(a, BlockedExtra(stage));
    GrowKeepsAttempts(c, a, b);
    assert b.extras == a.extras + [BlockedExtra(stage)] && ExtraOk(b.marks, b.violated, BlockedExtra(stage));
    GrowKeepsExtras(a, b);
    ExtraAppended(a.extras, BlockedExtra(stage), Haiku);
    ExtraAppended(a.extras, BlockedExtra(stage), Titan);
  }

  lemma MentionKeepsBooks(c: Config, a: Account, mark: Mark)
    requires Books(c, a)
    ensures Books(c, Mention(a, mark))
  {
    GrowKeepsAttempts(c, a, Mention(a, mark));
    GrowKeepsExtras(a, Mention(a, mark));
  }

  lemma ReceivedKeepsBooks(c: Config, a: Account, stage: Stage, retries: Option<int>, valid: bool)
    requires Books(c, a) && stage in a.attempts
    ensures Books(c, Received(a, stage, retries, valid))
  {
    var b := Received(a, stage, retries, valid);
    assert AttemptOk(c, a.marks, a.violated, stage, a.attempts[stage]);
    EnterKeepsAttempts(c, a, b, stage);
    GrowKeepsExtras(a, b);
    TotalsOfEnter(a.attempts, stage, b.attempts[stage]);
  }

  /** An attempt that reserved and has no settlement yet. */
  ghost predicate Open(a: Account, stage: Stage) {
    stage in a.attempts && !a.attempts[stage].settled && a.attempts[stage].charge.None?
  }

  lemma SettleKeepsBooks(c: Config, a: Account, stage: Stage, u: Usage, attributable: bool)
    requires Books(c, a) && Open(a, stage) && Model(stage)
    requires !attributable ==> OfStage(stage) in a.marks
    requires stage == Embedding ==> u.output == 0
    ensures Books(c, Settle(c, a, stage, u, attributable))
  {
    var b := Settle(c, a, stage, u, attributable);
    assert AttemptOk(c, a.marks, a.violated, stage, a.attempts[stage]);
    assert AttemptOk(c, b.marks, b.violated, stage, b.attempts[stage]);
    EnterKeepsAttempts(c, a, b, stage);
    GrowKeepsExtras(a, b);
    TotalsOfEnter(a.attempts, stage, b.attempts[stage]);
  }

  lemma WithdrawKeepsBooks(c: Config, s: State, stage: Stage)
    requires Books(c, s.account) && stage in s.account.attempts && s.permit.Some?
    ensures Books(c, Withdraw(s, stage).account)
  {
    var b := Withdraw(s, stage).account;
    assert AttemptOk(c, s.account.marks, s.account.violated, stage, s.account.attempts[stage]);
    EnterKeepsAttempts(c, s.account, b, stage);
    TotalsOfEnter(s.account.attempts, stage, b.attempts[stage]);
  }

  // ---- callbacks

  lemma CallbackKeepsBooks(c: Config, s: State, e: Callback)
    requires Books(c, s.account) && Journalled(s)
    ensures Books(c, OnCallback(c, s, e).account) && Journalled(OnCallback(c, s, e))
  {
    match e
    case ParametersCallback(_) =>
    case SendCallback(endpointOk, journalOk) =>
      SendKeepsBooks(c, s, endpointOk, journalOk);
    case ExtraCallback(o, journalOk) =>
      RecordExtraKeepsBooks(c, s, o, journalOk);
  }

  lemma SendKeepsBooks(c: Config, s: State, endpointOk: bool, journalOk: bool)
    requires Books(c, s.account) && Journalled(s)
    ensures Books(c, OnSend(s, endpointOk, journalOk).account) && Journalled(OnSend(s, endpointOk, journalOk))
  {
    if s.permit.Some? {
      BlockedKeepsBooks(c, s.account, s.permit.value.stage);
    }
  }

  lemma RecordExtraKeepsBooks(c: Config, s: State, o: Observation, journalOk: bool)
    requires Books(c, s.account) && Journalled(s)
    ensures Books(c, RecordExtra(c, s, o, journalOk).account) && Journalled(RecordExtra(c, s, o, journalOk))
  {
    if ValidReference(s, o) {
      ObserveKeepsBooks(c, s.account, o);
    } else {
      MentionKeepsBooks(c, s.account, UnidentifiedModelRequest);
    }
  }

  lemma {:induction false} CallbacksKeepBooks(c: Config, s: State, script: seq<Callback>)
    requires Books(c, s.account) && Journalled(s)
    ensures Books(c, OnCallbacks(c, s, script).account) && Journalled(OnCallbacks(c, s, script))
    decreases |script|
  {
    if script != [] {
      CallbackKeepsBooks(c, s, script[0]);
      CallbacksKeepBooks(c, OnCallback(c, s, script[0]), script[1..]);
    }
  }

  // ---- calls

  lemma CallbackHaltsOrKeeps(c: Config, s: State, e: Callback)
    ensures OnCallback(c, s, e).halted || OnCallback(c, s, e).account == s.account
    ensures s.halted ==> OnCallback(c, s, e).halted
  {}

  /** Anything suspicious that happens during a call halts the run. */
  lemma {:induction false} CallbacksHaltOrKeep(c: Config, s: State, script: seq<Callback>)
    ensures OnCallbacks(c, s, script).halted || OnCallbacks(c, s, script).account == s.account
    ensures s.halted ==> OnCallbacks(c, s, script).halted
    decreases |script|
  {
    if script != [] {
      CallbackHaltsOrKeeps(c, s, script[0]);
      CallbacksHaltOrKeep(c, OnCallback(c, s, script[0]), script[1..]);
    }
  }

  lemma JudgeKeepsBooks(c: Config, s: State, call: Call, response: Response, valid: bool)
    requires Books(c, s.account) && Journalled(s) && Open(s.account, call.stage)
    requires !valid ==> OfStage(call.stage) in s.account.marks
    ensures Books(c, Judge(c, s, call, response, valid).0.account) && Journalled(Judge(c, s, call, response, valid).0)
  {
    if Model(call.stage) && response.usage.Some? {
      SettleKeepsBooks(c, s.account, call.stage, UsageOf(call.stage, response.usage.value), valid);
    }
  }

  /** A call either halts the run, or passes with its charge settled within the reservation. */
  lemma JudgePassesOrHalts(c: Config, s: State, call: Call, response: Response, valid: bool)
    requires call.stage in s.account.attempts
    requires AttemptOk(c, s.account.marks, s.account.violated, call.stage, s.account.attempts[call.stage])
    ensures Judge(c, s, call, response, valid).1.Some? ==>
      Judge(c, s, call, response, valid).0.halted && Judge(c, s, call, response, valid).0.position == s.position
    ensures Judge(c, s, call, response, valid).1.None? ==> Passed(s, Judge(c, s, call, response, valid).0, call.stage)
  {}

  ghost predicate Passed(s: State, t: State, stage: Stage) {
    && !s.halted && !t.halted && t.position == s.position + 1
    && stage in t.account.attempts && t.account.attempts == s.account.attempts[stage := t.account.attempts[stage]]
    && (Model(stage) ==> SettledWithin(t.account.attempts[stage]))
    && t.account.marks == s.account.marks && t.account.violated == s.account.violated
    && t.account.extras == s.account.extras
  }

  /** What a call amounts to: the books stay in order, and it passes or halts the run. */
  ghost predicate Settles(c: Config, s: State, t: State, code: Option<Code>, stage: Stage) {
    && Books(c, t.account) && Journalled(t)
    && (code.Some? ==> t.halted && t.position == s.position)
    && (code.None? ==> Passed(s, t, stage))
  }

  lemma ReturnedSound(c: Config, s: State, call: Call, response: Response)
    requires s.permit.Some? && Books(c, s.account) && Journalled(s) && Open(s.account, call.stage)
    requires call.outcome == Returns(response)
    ensures Settles(c, s, Conclude(c, s, call).0, Conclude(c, s, call).1, call.stage)
  {
    var valid := CountValid(s.permit.value, response.retries);
    var received := s.(account := Received(s.account, call.stage, response.retries, valid));
    ReceivedKeepsBooks(c, s.account, call.stage, response.retries, valid);
    if response.decoding.Decoded? {
      JudgeKeepsBooks(c, received, call, response, valid);
      JudgePassesOrHalts(c, received, call, response, valid);
      JudgeNeedsValid(c, received, call, response, valid);
      PassedOnReceipt(s, received, Judge(c, received, call, response, valid).0, call.stage, response.retries, valid);
    }
  }

  lemma PassedOnReceipt(s: State, received: State, t: State, stage: Stage, retries: Option<int>, valid: bool)
    requires stage in s.account.attempts
    requires received == s.(account := Received(s.account, stage, retries, valid))
    ensures valid && Passed(received, t, stage) ==> Passed(s, t, stage)
  {}

  lemma ConcludeSound(c: Config, s: State, call: Call)
    requires s.permit.Some? && Books(c, s.account) && Journalled(s) && Open(s.account, call.stage)
    ensures Settles(c, s, Conclude(c, s, call).0, Conclude(c, s, call).1, call.stage)
  {
    if call.outcome.Returns? {
      ReturnedSound(c, s, call, call.outcome.response);
    }
  }

  lemma JudgeNeedsValid(c: Config, s: State, call: Call, response: Response, valid: bool)
    requires call.stage in s.account.attempts
    ensures !valid ==> Judge(c, s, call, response, valid).1.Some?
  {}

  lemma DispatchSound(c: Config, s: State, call: Call)
    requires Books(c, s.account) && Journalled(s) && Open(s.account, call.stage) && !s.halted
    ensures Settles(c, s, Dispatch(c, s, call).0, Dispatch(c, s, call).1, call.stage)
    ensures Dispatch(c, s, call).0.permit.None?
  {
    var out := s.(permit := Some(Permit(call.stage, 0, 0, 0, 0)));
    CallbacksKeepCall(c, out, call.script);
    CallbacksKeepBooks(c, out, call.script);
    CallbacksHaltOrKeep(c, out, call.script);
    var back := OnCallbacks(c, out, call.script);
    ConcludeKeepsCall(c, back, call);
    ConcludeSound(c, back, call);
    var ended := Conclude(c, back, call).0;
    WithdrawKeepsBooks(c, ended, call.stage);
  }

  lemma OrdinalNext(s: State, stage: Stage)
    requires Permitted(s, stage)
    ensures OrdinalOf(stage) == s.position
    ensures forall other :: OrdinalOf(other) == s.position ==> other == stage
  {}

  lemma InvokeKeepsSound(c: Config, s: State, call: Call)
    requires Sound(c, s)
    ensures Sound(c, Invoke(c, s, call).0)
  {
    if Permitted(s, call.stage) && call.precheck == Passes && Fits(c, s.account, call.stage) {
      OrdinalNext(s, call.stage);
      ReserveKeepsBooks(c, s.account, call.stage);
      var reserved := s.(account := Reserve(c, s.account, call.stage));
      var noted := Journal(reserved, AttemptEvent(call.stage, Reservation(c, call.stage)), call.attemptJournalOk);
      if call.attemptJournalOk {
        DispatchSound(c, noted, call);
      }
    }
  }

  lemma StepKeepsSound(c: Config, s: State, op: Op)
    requires Sound(c, s)
    ensures Sound(c, Step(c, s, op))
  {
    match op
    case InvokeOp(call) => InvokeKeepsSound(c, s, call);
    case ExtraOp(o, journalOk) => RecordExtraKeepsBooks(c, s, o, journalOk);
    case FailOp =>
  }

  lemma {:induction false} StepsKeepSound(c: Config, s: State, ops: seq<Op>)
    requires Sound(c, s)
    ensures Sound(c, Steps(c, s, ops))
    decreases |ops|
  {
    if ops != [] {
      StepKeepsSound(c, s, ops[0]);
      StepsKeepSound(c, Step(c, s, ops[0]), ops[1..]);
    }
  }

  /** Every state any run can reach is sound: exposure is conserved, every record is consistent,
      and spend above a cap is always flagged. */
  lemma RunsAreSound(c: Config, ops: seq<Op>)
    requires ValidConfig(c)
    ensures Sound(c, RunOf(c, ops))
  {
    ActivatedIsSound(c);
    StepsKeepSound(c, Activated(c), ops);
  }

  ghost predicate Fresh(s: State) {
    && s.position == 0 && s.permit.None? && s.account.haiku == s.account.titan == 0
    && s.account.attempts == map[] && s.account.extras == [] && s.account.marks == {} && !s.account.violated
    && (forall e | e in s.journal :: !e.UsageEvent?)
  }

  lemma FreshIsSound(c: Config, s: State)
    requires ValidConfig(c) && Fresh(s)
    ensures Sound(c, s)
  {}

  lemma ActivatedIsSound(c: Config)
    requires ValidConfig(c)
    ensures Sound(c, Activated(c))
  {
    FreshIsSound(c, Activated(c));
  }

  /** The i-th operation leads from one state of a trace to the next. */
  ghost predicate StepAt(c: Config, ops: seq<Op>, trace: seq<State>, i: nat)
    requires i < |ops| && i + 1 < |trace|
  {
    trace[i + 1] == Step(c, trace[i], ops[i])
  }

  /** The states a run passes through. */
  ghost predicate IsTrace(c: Config, ops: seq<Op>, trace: seq<State>) {
    && |trace| == |ops| + 1 && trace[0] == Activated(c)
    && (forall i: nat | i < |ops| :: StepAt(c, ops, trace, i))
  }

  /** Some run of the code under an active policy ends in this state. */
  ghost predicate Reachable(c: Config, s: State) {
    exists ops, trace :: IsTrace(c, ops, trace) && s == trace[|ops|]
  }

  lemma {:induction false} TraceIsSound(c: Config, ops: seq<Op>, trace: seq<State>, n: nat)
    requires ValidConfig(c) && IsTrace(c, ops, trace) && n <= |ops|
    ensures Sound(c, trace[n])
  {
    if n == 0 {
      ActivatedIsSound(c);
    } else {
      TraceIsSound(c, ops, trace, n - 1);
      assert StepAt(c, ops, trace, n - 1);
      StepKeepsSound(c, trace[n - 1], ops[n - 1]);
    }
  }

  lemma ReachableIsSound(c: Config, s: State)
    requires ValidConfig(c) && Reachable(c, s)
    ensures Sound(c, s)
  {
    var ops, trace :| IsTrace(c, ops, trace) && s == trace[|ops|];
    TraceIsSound(c, ops, trace, |ops|);
  }

  lemma TraceGrows(c: Config, ops: seq<Op>, trace: seq<State>, op: Op, next: State)
    requires IsTrace(c, ops, trace) && next == Step(c, trace[|ops|], op)
    ensures IsTrace(c, ops + [op], trace + [next])
  {
    forall i: nat | i < |ops + [op]| ensures StepAt(c, ops + [op], trace + [next], i) {
      if i < |ops| {
        assert StepAt(c, ops, trace, i);
      }
    }
  }

  lemma {:induction false} RunHasTrace(c: Config, ops: seq<Op>, trace: seq<State>, n: nat, more: seq<Op>)
    returns (longer: seq<State>)
    requires n == |ops| && IsTrace(c, ops, trace)
    ensures IsTrace(c, ops + more, longer) && longer[|ops + more|] == Steps(c, trace[n], more)
    decreases |more|
  {
    if more == [] {
      assert ops + more == ops;
      longer := trace;
    } else {
      var next := Step(c, trace[n], more[0]);
      TraceGrows(c, ops, trace, more[0], next);
      longer := RunHasTrace(c, ops + [more[0]], trace + [next], n + 1, more[1..]);
      assert ops + [more[0]] + more[1..] == ops + more;
    }
  }

  /** The end of every run is reachable. */
  lemma RunsAreReachable(c: Config, ops: seq<Op>)
    ensures Reachable(c, RunOf(c, ops))
  {
    var trace := RunHasTrace(c, [], [Activated(c)], 0, ops);
    assert [] + ops == ops;
  }
}
