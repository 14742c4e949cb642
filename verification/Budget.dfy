/** The offline budget proof (P0) and what it buys at run time. */
module Budget {
  import opened Basics
  import opened Results
  import opened Policy
  import opened PolicyBooks

  datatype Ceilings = Ceilings(haiku: int, titan: int, total: int)

  datatype Plan = Plan(route: nat, embedding: nat, generation: nat, infrastructure: nat)

  datatype PreflightError =
    | CeilingBindingMismatch | HaikuCeilingInsufficient | TitanCeilingInsufficient | TotalCeilingInsufficient

  /** The budget calculation of `validate`. */
  function Preflight(c: Config, ceilings: Ceilings, infrastructure: nat): Result<Plan, PreflightError> {
    if ceilings != Ceilings(c.capHaiku, c.capTitan, c.capTotal) then Err(CeilingBindingMismatch)
    else
      var route, embedding, generation := Reservation(c, Router), Reservation(c, Embedding), Reservation(c, Generation);
      if route + generation > ceilings.haiku then Err(HaikuCeilingInsufficient)
      else if embedding > ceilings.titan then Err(TitanCeilingInsufficient)
      else if route + generation + embedding + infrastructure > ceilings.total then Err(TotalCeilingInsufficient)
      else Ok(Plan(route, embedding, generation, infrastructure))
  }

  // ---- charges and reservations

  /** Usage within the token bounds never costs more than the reservation, so the dollar
      comparison flags nothing that the token bounds do not. */
  lemma ExceededMeansTokens(c: Config, stage: Stage, u: Usage)
    requires Model(stage)
    ensures Exceeded(c, stage, u)
       <==> u.input > PriceOf(c, ProviderOf(stage)).inputBound || u.output > OutputBound(c, stage)
  {
    var price := PriceOf(c, ProviderOf(stage));
    if u.input <= price.inputBound && u.output <= OutputBound(c, stage) {
      MulGrows(u.input, price.inputBound, price.input);
      MulGrows(u.output, OutputBound(c, stage), price.output);
    }
  }

  // ---- what the amounts are

  /** The largest charge of a stage within its bounds, stage by stage. */
  function Amount(c: Config, stage: Stage): nat {
    match stage
    case Router => c.haiku.inputBound * c.haiku.input + c.routerTokens * c.haiku.output
    case Embedding => c.titan.inputBound * c.titan.input
    case Generation => c.haiku.inputBound * c.haiku.input + c.generationTokens * c.haiku.output
    case Index => 0
    case Metadata => 0
  }

  lemma AmountIsReserved(c: Config, stage: Stage)
    ensures Reservation(c, stage) == Amount(c, stage)
  {}

  /** Room for one more amount under the cap of its provider and under the total cap. */
  predicate HasRoom(c: Config, a: Account, stage: Stage) {
    match stage
    case Router => a.haiku + Amount(c, Router) <= c.capHaiku && a.haiku + a.titan + Amount(c, Router) <= c.capTotal
    case Embedding =>
      a.titan + Amount(c, Embedding) <= c.capTitan && a.haiku + a.titan + Amount(c, Embedding) <= c.capTotal
    case Generation =>
      a.haiku + Amount(c, Generation) <= c.capHaiku && a.haiku + a.titan + Amount(c, Generation) <= c.capTotal
    case Index => true
    case Metadata => true
  }

  lemma RoomIsFit(c: Config, a: Account, stage: Stage)
    ensures HasRoom(c, a, stage) <==> Fits(c, a, stage)
  {
    AmountIsReserved(c, stage);
  }

  /** The plan that P0 reports, and the first ceiling it finds too low. */
  lemma PreflightSays(c: Config, ceilings: Ceilings, infrastructure: nat)
    ensures var bound := ceilings == Ceilings(c.capHaiku, c.capTitan, c.capTotal);
      var haiku, titan := Amount(c, Router) + Amount(c, Generation), Amount(c, Embedding);
      Preflight(c, ceilings, infrastructure) == (
        if bound && haiku <= c.capHaiku && titan <= c.capTitan && haiku + titan + infrastructure <= c.capTotal
        then Ok(Plan(Amount(c, Router), titan, Amount(c, Generation), infrastructure))
        else Err(if !bound then CeilingBindingMismatch else if haiku > c.capHaiku then HaikuCeilingInsufficient
                 else if titan > c.capTitan then TitanCeilingInsufficient else TotalCeilingInsufficient))
  {
    AmountIsReserved(c, Router);
    AmountIsReserved(c, Embedding);
    AmountIsReserved(c, Generation);
  }

  // ---- never exhausted

  lemma OnTrackExposure(c: Config, s: State)
    requires Sound(c, s) && !s.halted
    ensures s.account.haiku <= (if s.position > 0 then Reservation(c, Router) else 0)
                             + (if s.position > 4 then Reservation(c, Generation) else 0)
    ensures s.account.titan <= if s.position > 3 then Reservation(c, Embedding) else 0
  {
    var attempts := s.account.attempts;
    assert ExtraCharges(s.account.extras, Haiku) == ExtraCharges(s.account.extras, Titan) == 0;
    assert Router in attempts <==> s.position > 0;
    assert Embedding in attempts <==> s.position > 3;
    assert Generation in attempts <==> s.position > 4;
    assert forall stage | stage in attempts ::
      AttemptOk(c, s.account.marks, s.account.violated, stage, attempts[stage]);
  }

  /** After an accepted plan, whenever a call is permitted its reservation fits. */
  lemma AcceptedPlanFits(c: Config, ceilings: Ceilings, infrastructure: nat, s: State, stage: Stage)
    requires Preflight(c, ceilings, infrastructure).Ok?
    requires Sound(c, s) && Permitted(s, stage)
    ensures Fits(c, s.account, stage)
  {
    OnTrackExposure(c, s);
    OrdinalNext(s, stage);
  }

  /** No run of a policy whose plan P0 accepted raises RESERVATION_EXHAUSTED. */
  lemma NeverExhausted(c: Config, ceilings: Ceilings, infrastructure: nat, ops: seq<Op>, call: Call)
    requires ValidConfig(c) && Preflight(c, ceilings, infrastructure).Ok?
    ensures Invoke(c, RunOf(c, ops), call).1 != Some(ReservationExhausted)
  {
    var s := RunOf(c, ops);
    RunsAreSound(c, ops);
    InvokeNotExhausted(c, s, call, ceilings, infrastructure);
  }

  lemma InvokeNotExhausted(c: Config, s: State, call: Call, ceilings: Ceilings, infrastructure: nat)
    requires Sound(c, s) && Preflight(c, ceilings, infrastructure).Ok?
    ensures Invoke(c, s, call).1 != Some(ReservationExhausted)
  {
    if Permitted(s, call.stage) {
      AcceptedPlanFits(c, ceilings, infrastructure, s, call.stage);
      ExhaustedOnlyByReserve(c, s, call);
    }
  }

  lemma JudgeNeverExhausted(c: Config, s: State, call: Call, response: Response, valid: bool)
    requires call.stage in s.account.attempts
    ensures Judge(c, s, call, response, valid).1 != Some(ReservationExhausted)
  {}

  lemma ExhaustedOnlyByReserve(c: Config, s: State, call: Call)
    requires Fits(c, s.account, call.stage)
    ensures Invoke(c, s, call).1 != Some(ReservationExhausted)
  {
    if Permitted(s, call.stage) && call.precheck == Passes && call.attemptJournalOk && call.outcome.Returns? {
      var reserved := s.(account := Reserve(c, s.account, call.stage));
      var noted := Journal(reserved, AttemptEvent(call.stage, Reservation(c, call.stage)), true);
      var out := noted.(permit := Some(Permit(call.stage, 0, 0, 0, 0)));
      CallbacksKeepCall(c, out, call.script);
      var back := OnCallbacks(c, out, call.script);
      var response := call.outcome.response;
      var valid := CountValid(back.permit.value, response.retries);
      JudgeNeverExhausted(c, back.(account := Received(back.account, call.stage, response.retries, valid)), call,
        response, valid);
    }
  }

  // ---- the test is exact for the model part

  /** A call that is answered at its full token bounds. */
  function FullCall(c: Config, stage: Stage): Call {
    var usage :=
      if Model(stage) then Some(Usage(PriceOf(c, ProviderOf(stage)).inputBound, OutputBound(c, stage))) else None;
    Call(stage, Passes, true, [ParametersCallback(true), SendCallback(true, true)],
         Returns(Response(Some(0), Decoded, usage, true)), true)
  }

  /** The state after a full call that fits. */
  ghost predicate AdvancedBy(c: Config, s: State, t: State, stage: Stage) {
    && t.active && !t.halted && t.position == s.position + 1
    && t.account.haiku
      == s.account.haiku + (if Model(stage) && ProviderOf(stage) == Haiku then Reservation(c, stage) else 0)
    && t.account.titan
      == s.account.titan + (if Model(stage) && ProviderOf(stage) == Titan then Reservation(c, stage) else 0)
  }

  lemma FullScript(c: Config, s: State, stage: Stage)
    requires !s.halted && s.permit == Some(Permit(stage, 0, 0, 0, 0))
    ensures OnCallbacks(c, s, [ParametersCallback(true), SendCallback(true, true)])
         == s.(permit := Some(Permit(stage, 1, 1, 1, 0)))
  {
    var script := [ParametersCallback(true), SendCallback(true, true)];
    var middle := OnCallback(c, s, script[0]);
    assert middle == s.(permit := Some(Permit(stage, 1, 0, 0, 0)));
    assert script[1..] == [SendCallback(true, true)];
    var last := OnCallback(c, middle, script[1..][0]);
    assert last == s.(permit := Some(Permit(stage, 1, 1, 1, 0)));
    assert script[1..][1..] == [];
    assert OnCallbacks(c, middle, script[1..]) == OnCallbacks(c, last, []);
  }

  /** A full charge replaces a full reservation: exposure is unchanged. */
  lemma FullJudge(c: Config, s: State, stage: Stage)
    requires ValidConfig(c) && !s.halted && stage in s.account.attempts
    ensures var (t, code) := Judge(c, s, FullCall(c, stage), FullCall(c, stage).outcome.response, true);
      && code.None? && !t.halted && t.position == s.position + 1 && t.active == s.active
      && t.account.haiku == s.account.haiku && t.account.titan == s.account.titan
  {
    if Model(stage) {
      var u := FullCall(c, stage).outcome.response.usage.value;
      ExceededMeansTokens(c, stage, u);
      assert UsageOf(stage, u) == u;
    }
  }

  lemma FullCallAdvances(c: Config, s: State, stage: Stage)
    requires ValidConfig(c) && Permitted(s, stage) && Fits(c, s.account, stage)
    ensures Invoke(c, s, FullCall(c, stage)).1.None?
    ensures AdvancedBy(c, s, Invoke(c, s, FullCall(c, stage)).0, stage)
  {
    var call := FullCall(c, stage);
    var reserved := s.(account := Reserve(c, s.account, stage));
    var noted := Journal(reserved, AttemptEvent(stage, Reservation(c, stage)), true);
    var out := noted.(permit := Some(Permit(stage, 0, 0, 0, 0)));
    CallbacksKeepCall(c, out, call.script);
    FullScript(c, out, stage);
    var back := OnCallbacks(c, out, call.script);
    var received := back.(account := Received(back.account, stage, Some(0), true));
    FullJudge(c, received, stage);
    JudgeKeepsCall(c, received, call, call.outcome.response, true);
    assert Conclude(c, back, call) == Judge(c, received, call, call.outcome.response, true);
  }

  lemma {:induction false} StepsAppend(c: Config, s: State, ops: seq<Op>, op: Op)
    ensures Steps(c, s, ops + [op]) == Step(c, Steps(c, s, ops), op)
    decreases |ops|
  {
    if ops == [] {
      assert [op][1..] == [] && ops + [op] == [op];
      assert Steps(c, Step(c, s, op), []) == Step(c, s, op);
    } else {
      assert (ops + [op])[0] == ops[0] && (ops + [op])[1..] == ops[1..] + [op];
      StepsAppend(c, Step(c, s, ops[0]), ops[1..], op);
    }
  }

  /** No run ever meets a reservation that does not fit. */
  ghost predicate NoExhaustion(c: Config) {
    forall ops, stage | Permitted(RunOf(c, ops), stage) :: Fits(c, RunOf(c, ops).account, stage)
  }

  /** n stages answered at their full bounds. */
  ghost predicate FullState(c: Config, s: State, n: nat) {
    && s.active && !s.halted && s.position == n
    && s.account.haiku
      == (if n > 0 then Reservation(c, Router) else 0) + (if n > 4 then Reservation(c, Generation) else 0)
    && s.account.titan == (if n > 3 then Reservation(c, Embedding) else 0)
  }

  lemma FullStateNext(c: Config, s: State, n: nat)
    requires ValidConfig(c) && n < STAGES && FullState(c, s, n) && Fits(c, s.account, StageAt(n))
    ensures Permitted(s, StageAt(n))
    ensures FullState(c, Step(c, s, InvokeOp(FullCall(c, StageAt(n)))), n + 1)
  {
    FullCallAdvances(c, s, StageAt(n));
  }

  lemma ActivatedIsFull(c: Config)
    ensures FullState(c, Activated(c), 0)
  {}

  lemma {:induction false} FullRun(c: Config, n: nat) returns (ops: seq<Op>)
    requires ValidConfig(c) && NoExhaustion(c) && n <= STAGES
    ensures FullState(c, RunOf(c, ops), n)
  {
    if n == 0 {
      ops := [];
      ActivatedIsFull(c);
    } else {
      var before := FullRun(c, n - 1);
      var op := InvokeOp(FullCall(c, StageAt(n - 1)));
      assert Permitted(RunOf(c, before), StageAt(n - 1));
      FullStateNext(c, RunOf(c, before), n - 1);
      StepsAppend(c, Activated(c), before, op);
      ops := before + [op];
    }
  }

  lemma FitsAt(c: Config, n: nat)
    requires ValidConfig(c) && NoExhaustion(c) && n < STAGES
    ensures exists s :: FullState(c, s, n) && Fits(c, s.account, StageAt(n))
  {
    var ops := FullRun(c, n);
    assert Permitted(RunOf(c, ops), StageAt(n));
  }

  /** What an unhalted run has spent and holds leaves room for the infrastructure allowance. */
  ghost predicate LeavesRoom(c: Config, infrastructure: nat) {
    forall ops | !RunOf(c, ops).halted ::
      RunOf(c, ops).account.haiku + RunOf(c, ops).account.titan + infrastructure <= c.capTotal
  }

  lemma PlanLeavesRoom(c: Config, ceilings: Ceilings, infrastructure: nat, ops: seq<Op>)
    requires ValidConfig(c) && Preflight(c, ceilings, infrastructure).Ok? && !RunOf(c, ops).halted
    ensures RunOf(c, ops).account.haiku + RunOf(c, ops).account.titan + infrastructure <= c.capTotal
  {
    RunsAreSound(c, ops);
    OnTrackExposure(c, RunOf(c, ops));
  }

  lemma RoomAtTheEnd(c: Config, infrastructure: nat)
    requires ValidConfig(c) && NoExhaustion(c) && LeavesRoom(c, infrastructure)
    ensures Reservation(c, Router) + Reservation(c, Generation) + Reservation(c, Embedding) + infrastructure
         <= c.capTotal
  {
    var ops := FullRun(c, STAGES);
    assert FullState(c, RunOf(c, ops), STAGES);
  }

  /** The P0 calculation is exact, whatever the infrastructure allowance: it accepts precisely the policies that no run
      can exhaust and whose runs, until something halts them, leave the allowance free below the total cap. */
  lemma PreflightIsExact(c: Config, infrastructure: nat)
    requires ValidConfig(c)
    ensures NoExhaustion(c) && LeavesRoom(c, infrastructure) <==>
      Preflight(c, Ceilings(c.capHaiku, c.capTitan, c.capTotal), infrastructure).Ok?
  {
    var ceilings := Ceilings(c.capHaiku, c.capTitan, c.capTotal);
    if NoExhaustion(c) && LeavesRoom(c, infrastructure) {
      FitsAt(c, 3);
      FitsAt(c, 4);
      RoomAtTheEnd(c, infrastructure);
    }
    if Preflight(c, ceilings, infrastructure).Ok? {
      forall ops, stage | Permitted(RunOf(c, ops), stage) ensures Fits(c, RunOf(c, ops).account, stage) {
        RunsAreSound(c, ops);
        AcceptedPlanFits(c, ceilings, infrastructure, RunOf(c, ops), stage);
      }
      forall ops | !RunOf(c, ops).halted
        ensures RunOf(c, ops).account.haiku + RunOf(c, ops).account.titan + infrastructure <= c.capTotal
      {
        PlanLeavesRoom(c, ceilings, infrastructure, ops);
      }
    }
  }
}
