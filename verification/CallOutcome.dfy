/** What a call of the policy that passes looked like to the client, and the other way round. */
module CallOutcome {
  import opened Results
  import opened Policy
  import opened PolicyBooks
  import opened Budget

  // ---- the scripts of callbacks that count as one authorised request

  /** A parameter callback for some other request: it is turned away and leaves no trace. */
  predicate Quiet(e: Callback) {
    e == ParametersCallback(false)
  }

  /** The first callbacks that matter are a matching parameter check and a send to the reviewed endpoint. */
  ghost predicate OneRequest(script: seq<Callback>, i: nat, j: nat) {
    && i < j < |script| && script[i] == ParametersCallback(true)
    && script[j].SendCallback? && script[j].endpointOk
    && forall k: nat | k < j && k != i :: Quiet(script[k])
  }

  ghost predicate ExtraBetween(script: seq<Callback>, j: nat, k: nat) {
    exists m: nat :: j < m < k && m < |script| && script[m].ExtraCallback?
  }

  /** After the send nothing is counted any more: no further check, and a further send only once an observed extra
      request has halted the run, which turns it away. */
  ghost predicate NothingCountedAfter(script: seq<Callback>, j: nat) {
    forall k: nat | j < k < |script| ::
      script[k] != ParametersCallback(true) && (script[k].SendCallback? ==> ExtraBetween(script, j, k))
  }

  ghost predicate Counted(script: seq<Callback>) {
    exists i: nat, j: nat :: OneRequest(script, i, j) && NothingCountedAfter(script, j)
  }

  /** Exactly one check and one send, in this order, and nothing else that leaves a trace. */
  ghost predicate Clean(script: seq<Callback>) {
    exists i: nat, j: nat :: OneRequest(script, i, j) && forall k: nat | j < k < |script| :: Quiet(script[k])
  }

  // ---- how far a script has come

  datatype Phase = Idle | Checked(i: nat) | Sent(i: nat, j: nat, halted: bool) | Lost

  function PhaseOf(script: seq<Callback>): Phase {
    if script == [] then Idle else
      var n := |script| - 1;
      NextPhase(PhaseOf(script[..n]), script[n], n)
  }

  function NextPhase(phase: Phase, e: Callback, n: nat): Phase {
    match phase
    case Idle => if Quiet(e) then Idle else if e.ParametersCallback? then Checked(n) else Lost
    case Checked(i) =>
      if Quiet(e) then phase else if e.SendCallback? && e.endpointOk then Sent(i, n, false) else Lost
    case Sent(i, j, halted) =>
      if e == ParametersCallback(true) || (e.SendCallback? && !halted) then Lost
      else Sent(i, j, halted || e.ExtraCallback?)
    case Lost => Lost
  }

  lemma {:induction false} OnCallbacksLast(c: Config, s: State, script: seq<Callback>)
    requires script != []
    ensures OnCallbacks(c, s, script) == OnCallback(c, OnCallbacks(c, s, script[..|script| - 1]), script[|script| - 1])
    decreases |script|
  {
    var init := script[..|script| - 1];
    if init == [] {
      assert OnCallbacks(c, OnCallback(c, s, script[0]), script[1..]) == OnCallback(c, s, script[0]);
    } else {
      assert init[0] == script[0] && init[1..] == script[1..][..|script[1..]| - 1];
      OnCallbacksLast(c, OnCallback(c, s, script[0]), script[1..]);
    }
  }

  /** Counts that no further callback makes valid. */
  predicate Doomed(s: State) {
    && s.permit.Some?
    && var p := s.permit.value;
       p.parameterChecks > 1 || p.sends > 1 || (p.sends == 1 && p.approved == 0) || (p.sends == 0 && s.halted)
  }

  /** The state of an open call after a script that has come so far. */
  predicate Reached(s: State, phase: Phase, stage: Stage) {
    && s.active && s.permit.Some? && s.permit.value.stage == stage
    && match phase
       case Idle => !s.halted && s.permit.value == Permit(stage, 0, 0, 0, 0)
       case Checked(_) => !s.halted && s.permit.value == Permit(stage, 1, 0, 0, 0)
       case Sent(_, _, halted) => s.halted == halted && s.permit.value == Permit(stage, 1, 1, 1, 0)
       case Lost => Doomed(s)
  }

  lemma CallbackFits(c: Config, s: State, e: Callback, phase: Phase, n: nat, stage: Stage)
    requires Reached(s, phase, stage)
    ensures Reached(OnCallback(c, s, e), NextPhase(phase, e, n), stage)
  {
    CallbackKeepsCall(c, s, e);
  }

  lemma {:induction false} ScriptFits(c: Config, s: State, script: seq<Callback>, stage: Stage)
    requires s.active && !s.halted && s.permit == Some(Permit(stage, 0, 0, 0, 0))
    ensures Reached(OnCallbacks(c, s, script), PhaseOf(script), stage)
    ensures !PhaseOf(script).Lost? && !OnCallbacks(c, s, script).halted ==>
      OnCallbacks(c, s, script) == s.(permit := OnCallbacks(c, s, script).permit)
  {
    if script != [] {
      var n := |script| - 1;
      ScriptFits(c, s, script[..n], stage);
      OnCallbacksLast(c, s, script);
      CallbackFits(c, OnCallbacks(c, s, script[..n]), script[n], PhaseOf(script[..n]), n, stage);
    }
  }

  // ---- phases and scripts

  ghost predicate CheckedAt(script: seq<Callback>, i: nat) {
    && i < |script| && script[i] == ParametersCallback(true)
    && forall k: nat | k < |script| && k != i :: Quiet(script[k])
  }

  /** What a phase says of the script. */
  ghost predicate Says(script: seq<Callback>, phase: Phase) {
    match phase
    case Idle => forall k: nat | k < |script| :: Quiet(script[k])
    case Checked(i) => CheckedAt(script, i)
    case Sent(i, j, halted) =>
      OneRequest(script, i, j) && NothingCountedAfter(script, j) && halted == ExtraBetween(script, j, |script|)
    case Lost => true
  }

  lemma ExtraGrows(init: seq<Callback>, script: seq<Callback>, j: nat, k: nat)
    requires init <= script && k <= |init|
    ensures ExtraBetween(init, j, k) <==> ExtraBetween(script, j, k)
  {}

  lemma ExtraLast(script: seq<Callback>, j: nat)
    requires script != [] && j < |script| - 1
    ensures ExtraBetween(script, j, |script|) <==>
      ExtraBetween(script, j, |script| - 1) || script[|script| - 1].ExtraCallback?
  {
    if script[|script| - 1].ExtraCallback? {
      assert j < |script| - 1 < |script| && script[|script| - 1].ExtraCallback?;
    }
  }

  lemma SentSays(script: seq<Callback>, i: nat, j: nat, halted: bool)
    requires script != [] && Says(script[..|script| - 1], Sent(i, j, halted))
    ensures Says(script, NextPhase(Sent(i, j, halted), script[|script| - 1], |script| - 1))
  {
    var n := |script| - 1;
    var init := script[..n];
    assert forall k: nat | k < n :: init[k] == script[k];
    ExtraGrows(init, script, j, n);
    ExtraLast(script, j);
    forall k: nat | j < k < n && script[k].SendCallback? ensures ExtraBetween(script, j, k) {
      ExtraGrows(init, script, j, k);
      assert init[k] != ParametersCallback(true);
    }
    assert OneRequest(script, i, j) by {
      assert forall k: nat | k < j && k != i :: Quiet(init[k]);
    }
    if NextPhase(Sent(i, j, halted), script[n], n).Sent? {
      forall k: nat | j < k < |script|
        ensures script[k] != ParametersCallback(true) && (script[k].SendCallback? ==> ExtraBetween(script, j, k))
      {
        if k < n {
          assert init[k] != ParametersCallback(true);
        }
      }
    }
  }

  lemma {:induction false} PhaseSays(script: seq<Callback>)
    ensures Says(script, PhaseOf(script))
  {
    if script != [] {
      var n := |script| - 1;
      var init := script[..n];
      PhaseSays(init);
      if PhaseOf(init).Sent? {
        var Sent(i, j, halted) := PhaseOf(init);
        SentSays(script, i, j, halted);
      } else {
        assert forall k: nat | k < n :: init[k] == script[k];
      }
    }
  }

  lemma {:induction false} QuietIsIdle(script: seq<Callback>)
    requires forall k: nat | k < |script| :: Quiet(script[k])
    ensures PhaseOf(script) == Idle
  {
    if script != [] {
      QuietIsIdle(script[..|script| - 1]);
    }
  }

  lemma {:induction false} OnceChecked(script: seq<Callback>, i: nat)
    requires CheckedAt(script, i)
    ensures PhaseOf(script) == Checked(i)
  {
    var n := |script| - 1;
    if i == n {
      QuietIsIdle(script[..n]);
    } else {
      assert CheckedAt(script[..n], i);
      OnceChecked(script[..n], i);
      assert Quiet(script[n]);
    }
  }

  lemma {:induction false} OnceSent(script: seq<Callback>, i: nat, j: nat)
    requires OneRequest(script, i, j) && NothingCountedAfter(script, j)
    ensures PhaseOf(script) == Sent(i, j, ExtraBetween(script, j, |script|))
  {
    var n := |script| - 1;
    var init := script[..n];
    assert forall k: nat | k < n :: init[k] == script[k];
    if j == n {
      assert CheckedAt(init, i);
      OnceChecked(init, i);
    } else {
      assert OneRequest(init, i, j);
      forall k: nat | j < k < n && init[k].SendCallback? ensures ExtraBetween(init, j, k) {
        ExtraGrows(init, script, j, k);
      }
      OnceSent(init, i, j);
      ExtraGrows(init, script, j, n);
      ExtraLast(script, j);
    }
  }

  lemma CleanIsCounted(script: seq<Callback>)
    ensures Clean(script) <==> Counted(script) && forall e | e in script :: !e.ExtraCallback?
  {
    if i: nat, j: nat :| OneRequest(script, i, j) && forall k: nat | j < k < |script| :: Quiet(script[k]) {
      assert NothingCountedAfter(script, j);
      forall e | e in script ensures !e.ExtraCallback? {
        var k: nat :| k < |script| && script[k] == e;
        assert k == i || k == j || Quiet(script[k]);
      }
    }
    if Counted(script) && forall e | e in script :: !e.ExtraCallback? {
      var i: nat, j: nat :| OneRequest(script, i, j) && NothingCountedAfter(script, j);
      forall k: nat | j < k < |script| ensures Quiet(script[k]) {
        assert script[k] in script;
      }
    }
  }

  /** The counts of a fresh permit are valid exactly for a counted script, and the run goes on exactly for a clean
      one. */
  lemma CountsExactly(c: Config, s: State, script: seq<Callback>, stage: Stage, retries: Option<int>)
    requires s.active && !s.halted && s.permit == Some(Permit(stage, 0, 0, 0, 0))
    ensures OnCallbacks(c, s, script).permit.Some?
    ensures CountValid(OnCallbacks(c, s, script).permit.value, retries) <==> retries == Some(0) && Counted(script)
    ensures Counted(script) ==> OnCallbacks(c, s, script).permit.value == Permit(stage, 1, 1, 1, 0)
    ensures Counted(script) && !OnCallbacks(c, s, script).halted <==> Clean(script)
    ensures Clean(script) ==> OnCallbacks(c, s, script) == s.(permit := Some(Permit(stage, 1, 1, 1, 0)))
  {
    ScriptFits(c, s, script, stage);
    PhaseSays(script);
    CleanIsCounted(script);
    if i: nat, j: nat :| OneRequest(script, i, j) && NothingCountedAfter(script, j) {
      OnceSent(script, i, j);
      ExtraAnywhere(script, i, j);
    }
  }

  lemma ExtraAnywhere(script: seq<Callback>, i: nat, j: nat)
    requires OneRequest(script, i, j)
    ensures ExtraBetween(script, j, |script|) <==> exists e :: e in script && e.ExtraCallback?
  {
    if e :| e in script && e.ExtraCallback? {
      var k: nat :| k < |script| && script[k] == e;
      assert !Quiet(script[k]) && k != i && k != j;
      assert j < k < |script| && script[k].ExtraCallback?;
    }
    if m: nat :| j < m < |script| && script[m].ExtraCallback? {
      assert script[m] in script;
    }
  }

  // ---- calls

  /** Which stage is to come after so many. */
  predicate Follows(position: nat, stage: Stage) {
    match stage
    case Router => position == 0
    case Index => position == 1
    case Metadata => position == 2
    case Embedding => position == 3
    case Generation => position == 4
  }

  /** It is the turn of the stage, and nothing has stopped the run. */
  ghost predicate HasTurn(s: State, stage: Stage) {
    s.active && !s.halted && Follows(s.position, stage)
  }

  lemma TurnIsPermitted(s: State, stage: Stage)
    ensures HasTurn(s, stage) <==> Permitted(s, stage)
  {}

  /** Everything the call needs before the client is asked. */
  ghost predicate Starts(c: Config, s: State, call: Call) {
    HasTurn(s, call.stage) && call.precheck == Passes && HasRoom(c, s.account, call.stage) && call.attemptJournalOk
  }

  lemma StartsExactly(c: Config, s: State, call: Call)
    ensures Starts(c, s, call) <==>
      Permitted(s, call.stage) && call.precheck == Passes && Fits(c, s.account, call.stage) && call.attemptJournalOk
  {
    TurnIsPermitted(s, call.stage);
    RoomIsFit(c, s.account, call.stage);
  }

  /** The usage that a response reports for a model stage. */
  function Reported(stage: Stage, response: Response): Option<Usage> {
    if response.usage.None? then None
    else Some(Usage(response.usage.value.input, if stage == Embedding then 0 else response.usage.value.output))
  }

  /** A response after no retry that could be read. */
  ghost predicate Readable(call: Call) {
    && call.outcome.Returns? && call.outcome.response.retries == Some(0) && call.outcome.response.decoding.Decoded?
  }

  /** The token bounds of each model stage. */
  predicate WithinTokens(c: Config, stage: Stage, u: Usage) {
    match stage
    case Router => u.input <= c.haiku.inputBound && u.output <= c.routerTokens
    case Embedding => u.input <= c.titan.inputBound && u.output == 0
    case Generation => u.input <= c.haiku.inputBound && u.output <= c.generationTokens
    case Index => true
    case Metadata => true
  }

  lemma WithinTokensExactly(c: Config, stage: Stage, u: Usage)
    requires Model(stage)
    ensures WithinTokens(c, stage, u) <==> !Exceeded(c, stage, u)
  {
    ExceededMeansTokens(c, stage, u);
  }

  /** What the tokens of a stage cost. */
  function Cost(c: Config, stage: Stage, u: Usage): nat {
    if stage == Embedding then u.input * c.titan.input + u.output * c.titan.output
    else u.input * c.haiku.input + u.output * c.haiku.output
  }

  /** A model stage also needs recorded usage within its token bounds, and text where text is asked for. */
  ghost predicate GoodAnswer(c: Config, call: Call) {
    && Readable(call)
    && (Model(call.stage) ==>
          && Reported(call.stage, call.outcome.response).Some? && call.usageJournalOk
          && WithinTokens(c, call.stage, Reported(call.stage, call.outcome.response).value))
    && (call.stage == Router || call.stage == Generation ==> call.outcome.response.outputOk)
  }

  /** The attempt that a passing call leaves behind. */
  function PassedAttempt(c: Config, stage: Stage, u: Option<Usage>): Attempt {
    if Model(stage) && u.Some? then
      Attempt(Amount(c, stage), true, 0, Yes, Some(0), u, Some(AuthorizedRequest), Some(Cost(c, stage, u.value)),
              Some(SendChecks(1, 1, 0)))
    else Attempt(0, false, 0, Yes, Some(0), None, None, None, Some(SendChecks(1, 1, 0)))
  }

  /** The state that a passing call leads to: the stage is done, its charge is spent, and nothing else changes. */
  function PassedState(c: Config, s: State, call: Call, u: Option<Usage>): State {
    s.(position := s.position + 1, permit := None, account := PassedAccount(c, s.account, call.stage, u),
       journal := s.journal + [AttemptEvent(call.stage, Amount(c, call.stage))]
         + (if Model(call.stage) then [UsageEvent(call.stage, false)] else []))
  }

  function PassedAccount(c: Config, a: Account, stage: Stage, u: Option<Usage>): Account {
    var attempt := PassedAttempt(c, stage, u);
    var spent := if attempt.charge.Some? then attempt.charge.value else 0;
    a.(attempts := a.attempts[stage := attempt],
       haiku := a.haiku + (if stage == Router || stage == Generation then spent else 0),
       titan := a.titan + (if stage == Embedding then spent else 0))
  }

  lemma UsageIsReported(call: Call)
    requires Model(call.stage) && call.outcome.Returns? && call.outcome.response.usage.Some?
    ensures Reported(call.stage, call.outcome.response)
         == Some(UsageOf(call.stage, call.outcome.response.usage.value))
  {}

  lemma JudgePasses(c: Config, s: State, call: Call, response: Response, valid: bool)
    requires call.stage in s.account.attempts && call.outcome == Returns(response)
    requires response.retries == Some(0) && response.decoding.Decoded?
    ensures Judge(c, s, call, response, valid).1.None? <==> valid && !s.halted && GoodAnswer(c, call)
  {
    if Model(call.stage) && response.usage.Some? {
      UsageIsReported(call);
      WithinTokensExactly(c, call.stage, UsageOf(call.stage, response.usage.value));
    }
  }

  lemma JudgeOfModel(c: Config, s: State, call: Call, response: Response, u: Usage)
    requires call.stage in s.account.attempts && call.outcome == Returns(response)
    requires !s.halted && GoodAnswer(c, call) && Model(call.stage)
    requires Reported(call.stage, response) == Some(u)
    ensures Judge(c, s, call, response, true).0 ==
      s.(account := Settle(c, s.account, call.stage, u, true), position := s.position + 1,
         journal := s.journal + [UsageEvent(call.stage, false)])
    ensures Settle(c, s.account, call.stage, u, true).violated == s.account.violated
  {
    UsageIsReported(call);
    WithinTokensExactly(c, call.stage, u);
  }

  /** The call once its reservation is in the books. */
  ghost predicate Begun(c: Config, s: State, stage: Stage) {
    && s.active && !s.halted && stage in s.account.attempts
    && s.account.attempts[stage] == FreshAttempt(Reservation(c, stage))
  }

  lemma ConcludePasses(c: Config, s: State, call: Call)
    requires s.permit.Some? && call.stage in s.account.attempts
    ensures Conclude(c, s, call).1.None? <==>
      GoodAnswer(c, call) && !s.halted && CountValid(s.permit.value, Some(0))
  {
    if call.outcome.Returns? && call.outcome.response.decoding.Decoded? {
      var response := call.outcome.response;
      var valid := CountValid(s.permit.value, response.retries);
      var received := s.(account := Received(s.account, call.stage, response.retries, valid));
      if valid {
        JudgePasses(c, received, call, response, valid);
      } else {
        JudgeNeedsValid(c, received, call, response, valid);
      }
    }
  }

  lemma DispatchPasses(c: Config, s: State, call: Call)
    requires Begun(c, s, call.stage)
    ensures Dispatch(c, s, call).1.None? <==> Clean(call.script) && GoodAnswer(c, call)
  {
    var out := s.(permit := Some(Permit(call.stage, 0, 0, 0, 0)));
    CallbacksKeepCall(c, out, call.script);
    CountsExactly(c, out, call.script, call.stage, Some(0));
    ConcludePasses(c, OnCallbacks(c, out, call.script), call);
  }

  /** A call returns no code if and only if it could start, the client made exactly the one checked and approved
      request, and the answer came without retry, could be read, was recorded and stayed within its bounds. */
  lemma InvokePassesExactly(c: Config, s: State, call: Call)
    ensures Invoke(c, s, call).1.None? <==> Starts(c, s, call) && Clean(call.script) && GoodAnswer(c, call)
  {
    StartsExactly(c, s, call);
    if Starts(c, s, call) {
      var reserved := s.(account := Reserve(c, s.account, call.stage));
      DispatchPasses(c, Journal(reserved, AttemptEvent(call.stage, Reservation(c, call.stage)), true), call);
    }
  }

  // ---- what a call leaves behind

  lemma PassedModelAccount(c: Config, a: Account, stage: Stage, u: Usage, b: Account)
    requires Model(stage) && WithinTokens(c, stage, u)
    requires b == Settle(c, Received(Reserve(c, a, stage), stage, Some(0), true), stage, u, true)
    ensures Enter(b, stage, b.attempts[stage].(sends := Some(SendChecks(1, 1, 0))))
         == PassedAccount(c, a, stage, Some(u))
  {
    WithinTokensExactly(c, stage, u);
    AmountIsReserved(c, stage);
    assert b.attempts[stage].(sends := Some(SendChecks(1, 1, 0))) == PassedAttempt(c, stage, Some(u));
  }

  lemma PassedOtherAccount(c: Config, a: Account, stage: Stage, b: Account)
    requires !Model(stage) && b == Received(Reserve(c, a, stage), stage, Some(0), true)
    ensures Enter(b, stage, b.attempts[stage].(sends := Some(SendChecks(1, 1, 0)))) == PassedAccount(c, a, stage, None)
  {
    assert b.attempts[stage].(sends := Some(SendChecks(1, 1, 0))) == PassedAttempt(c, stage, None);
  }

  lemma ConcludeOfGood(c: Config, s: State, call: Call, a: Account, u: Option<Usage>)
    requires !s.halted && s.permit == Some(Permit(call.stage, 1, 1, 1, 0)) && s.account == Reserve(c, a, call.stage)
    requires GoodAnswer(c, call)
    requires u == if Model(call.stage) then Reported(call.stage, call.outcome.response) else None
    ensures call.stage in Conclude(c, s, call).0.account.attempts
    ensures Withdraw(Conclude(c, s, call).0, call.stage) ==
      s.(permit := None, account := PassedAccount(c, a, call.stage, u), position := s.position + 1,
         journal := s.journal + (if Model(call.stage) then [UsageEvent(call.stage, false)] else []))
  {
    var response := call.outcome.response;
    var received := s.(account := Received(s.account, call.stage, response.retries, true));
    if Model(call.stage) {
      JudgeOfModel(c, received, call, response, u.value);
      PassedModelAccount(c, a, call.stage, u.value, Settle(c, received.account, call.stage, u.value, true));
    } else {
      PassedOtherAccount(c, a, call.stage, received.account);
    }
  }

  /** What a passing call leaves behind, to the last field: the stage is answered, its charge replaces the
      reservation, and nothing else has changed. */
  lemma InvokePassedState(c: Config, s: State, call: Call)
    requires Invoke(c, s, call).1.None?
    ensures call.outcome.Returns?
    ensures Invoke(c, s, call).0 == PassedState(c, s, call, Reported(call.stage, call.outcome.response))
  {
    InvokePassesExactly(c, s, call);
    StartsExactly(c, s, call);
    AmountIsReserved(c, call.stage);
    var reserved := s.(account := Reserve(c, s.account, call.stage));
    var noted := Journal(reserved, AttemptEvent(call.stage, Reservation(c, call.stage)), true);
    var out := noted.(permit := Some(Permit(call.stage, 0, 0, 0, 0)));
    CallbacksKeepCall(c, out, call.script);
    CountsExactly(c, out, call.script, call.stage, Some(0));
    var u := if Model(call.stage) then Reported(call.stage, call.outcome.response) else None;
    ConcludeOfGood(c, OnCallbacks(c, out, call.script), call, s.account, u);
  }

  /** A count that the policy accepts: the response reports no retry, and the client made one checked request. */
  ghost predicate CountedAnswer(call: Call) {
    call.outcome.Returns? && call.outcome.response.retries == Some(0) && Counted(call.script)
  }

  /** What the record of a call that started says, whatever came of it. */
  ghost predicate Recorded(call: Call, a: Attempt, marks: set<Mark>) {
    && (a.delivery == Yes <==> CountedAnswer(call))
    && (call.outcome.Returns? && !CountedAnswer(call) ==> OfStage(call.stage) in marks)
    && a.retries == (if call.outcome.Returns? && call.outcome.response.retries.GetOr(-1) >= 0
                     then Some(call.outcome.response.retries.value as nat) else None)
    && a.usage == (if Model(call.stage) && call.outcome.Returns? && call.outcome.response.decoding.Decoded?
                   then Reported(call.stage, call.outcome.response) else None)
    && (a.settled <==> a.usage.Some? && CountedAnswer(call))
    && (a.attribution == Some(AuthorizedRequest) <==> a.settled) && (a.attribution.Some? <==> a.usage.Some?)
  }

  lemma JudgedAccount(c: Config, s: State, call: Call, response: Response, valid: bool)
    requires call.stage in s.account.attempts
    ensures Judge(c, s, call, response, valid).0.account == (
      if Model(call.stage) && response.usage.Some?
      then Settle(c, s.account, call.stage, UsageOf(call.stage, response.usage.value), valid) else s.account)
  {}

  /** The account once the client has returned. */
  function ConcludedAccount(c: Config, a: Account, call: Call, valid: bool): Account
    requires call.stage in a.attempts
  {
    if !call.outcome.Returns? then a else
      var response := call.outcome.response;
      var received := Received(a, call.stage, response.retries, valid);
      if Model(call.stage) && response.decoding.Decoded? && response.usage.Some?
      then Settle(c, received, call.stage, UsageOf(call.stage, response.usage.value), valid) else received
  }

  lemma ConcludeAccount(c: Config, s: State, call: Call, valid: bool)
    requires s.permit.Some? && call.stage in s.account.attempts
    requires call.outcome.Returns? ==> valid == CountValid(s.permit.value, call.outcome.response.retries)
    ensures Conclude(c, s, call).0.account == ConcludedAccount(c, s.account, call, valid)
  {
    if call.outcome.Returns? && call.outcome.response.decoding.Decoded? {
      var response := call.outcome.response;
      JudgedAccount(c, s.(account := Received(s.account, call.stage, response.retries, valid)), call, response, valid);
    }
  }

  lemma ConcludedIsRecorded(c: Config, a: Account, call: Call, valid: bool)
    requires call.stage in a.attempts && a.attempts[call.stage] == FreshAttempt(Reservation(c, call.stage))
    requires call.outcome.Returns? ==> (valid <==> CountedAnswer(call))
    ensures call.stage in ConcludedAccount(c, a, call, valid).attempts
    ensures Recorded(call, ConcludedAccount(c, a, call, valid).attempts[call.stage],
      ConcludedAccount(c, a, call, valid).marks)
  {
    if call.outcome.Returns? {
      var received := Received(a, call.stage, call.outcome.response.retries, valid);
      assert call.stage in received.attempts;
      if Model(call.stage) && call.outcome.response.usage.Some? {
        UsageIsReported(call);
      }
    }
  }

  lemma ConcludeRecords(c: Config, s: State, call: Call)
    requires s.permit.Some? && call.stage in s.account.attempts
    requires s.account.attempts[call.stage] == FreshAttempt(Reservation(c, call.stage))
    requires CountValid(s.permit.value, Some(0)) <==> Counted(call.script)
    ensures call.stage in Conclude(c, s, call).0.account.attempts
    ensures Recorded(call, Conclude(c, s, call).0.account.attempts[call.stage], Conclude(c, s, call).0.account.marks)
  {
    var valid := call.outcome.Returns? && CountValid(s.permit.value, call.outcome.response.retries);
    ConcludeAccount(c, s, call, valid);
    ConcludedIsRecorded(c, s.account, call, valid);
  }

  /** A started call is recorded truthfully. In particular its stage is settled as an authorised request exactly when
      the response was readable, reported usage and no retry, and the client made the one checked request. */
  lemma InvokeRecordsExactly(c: Config, s: State, call: Call)
    requires Starts(c, s, call)
    ensures call.stage in Invoke(c, s, call).0.account.attempts
    ensures Recorded(call, Invoke(c, s, call).0.account.attempts[call.stage], Invoke(c, s, call).0.account.marks)
  {
    StartsExactly(c, s, call);
    var reserved := s.(account := Reserve(c, s.account, call.stage));
    var noted := Journal(reserved, AttemptEvent(call.stage, Reservation(c, call.stage)), true);
    var out := noted.(permit := Some(Permit(call.stage, 0, 0, 0, 0)));
    CallbacksKeepCall(c, out, call.script);
    CountsExactly(c, out, call.script, call.stage, Some(0));
    var back := OnCallbacks(c, out, call.script);
    ConcludeKeepsCall(c, back, call);
    ConcludeRecords(c, back, call);
  }

  /** A settled call need not be clean: an extra request observed after the send stops the run, with the charge of the
      call already settled. */
  lemma LateExtraIsSettled(c: Config, s: State, call: Call, o: Observation)
    requires call.script == [ParametersCallback(true), SendCallback(true, true), ExtraCallback(o, true)]
    requires call.outcome == Returns(Response(Some(0), Decoded, Some(Usage(1, 1)), true)) && Model(call.stage)
    requires Starts(c, s, call)
    ensures !Clean(call.script) && Invoke(c, s, call).1.Some?
    ensures call.stage in Invoke(c, s, call).0.account.attempts
    ensures Invoke(c, s, call).0.account.attempts[call.stage].settled
  {
    assert OneRequest(call.script, 0, 1) && NothingCountedAfter(call.script, 1);
    assert call.script[2] in call.script && call.script[2].ExtraCallback?;
    CleanIsCounted(call.script);
    InvokePassesExactly(c, s, call);
    InvokeRecordsExactly(c, s, call);
  }

  // ---- the code of a call

  /** The code of a call that was dispatched: the first of its checks to fail, in the order in which they count. */
  ghost function DispatchCode(c: Config, call: Call): Option<Code> {
    if call.outcome.RaisesStop? then Some(Raised(call.outcome.code))
    else if call.outcome.RaisesOther? || call.outcome.response.decoding.DecodingRaises? then
      Some(UncertainProviderOutcome)
    else
      var response := call.outcome.response;
      if response.decoding.DecodingStops? then Some(Raised(response.decoding.code))
      else if Model(call.stage) && response.usage.None? then Some(UsageInvalid)
      else if Model(call.stage) && !call.usageJournalOk then Some(EvidencePublicationFailed)
      else if !CountedAnswer(call) then Some(AttemptCountInvalid)
      else if !Clean(call.script) then Some(ExtraRequestObserved)
      else if Model(call.stage) && !WithinTokens(c, call.stage, Reported(call.stage, response).value) then
        Some(UsageOverrun)
      else if (call.stage == Router || call.stage == Generation) && !response.outputOk then Some(ModelOutputInvalid)
      else None
  }

  lemma JudgeCode(c: Config, s: State, call: Call, response: Response, valid: bool)
    requires call.stage in s.account.attempts && call.outcome == Returns(response) && response.decoding.Decoded?
    requires valid <==> CountedAnswer(call)
    requires valid ==> (s.halted <==> !Clean(call.script))
    ensures Judge(c, s, call, response, valid).1 == DispatchCode(c, call)
  {
    if Model(call.stage) && response.usage.Some? {
      UsageIsReported(call);
      WithinTokensExactly(c, call.stage, UsageOf(call.stage, response.usage.value));
    }
  }

  lemma ConcludeCode(c: Config, s: State, call: Call)
    requires s.permit.Some? && call.stage in s.account.attempts
    requires CountValid(s.permit.value, Some(0)) <==> Counted(call.script)
    requires Counted(call.script) ==> (s.halted <==> !Clean(call.script))
    ensures Conclude(c, s, call).1 == DispatchCode(c, call)
  {
    if call.outcome.Returns? && call.outcome.response.decoding.Decoded? {
      var response := call.outcome.response;
      var valid := CountValid(s.permit.value, response.retries);
      JudgeCode(c, s.(account := Received(s.account, call.stage, response.retries, valid)), call, response, valid);
    }
  }

  /** The code of any call, from the client's side of it: what was refused before the request, or what was wrong with
      the callbacks and the answer. */
  lemma InvokeCodeExactly(c: Config, s: State, call: Call)
    ensures Invoke(c, s, call).1 == (
      if !HasTurn(s, call.stage) then Some(ChainOrderInvalid)
      else if call.precheck != Passes then Some(Refused(call.precheck))
      else if !HasRoom(c, s.account, call.stage) then Some(ReservationExhausted)
      else if !call.attemptJournalOk then Some(EvidencePublicationFailed)
      else DispatchCode(c, call))
  {
    TurnIsPermitted(s, call.stage);
    RoomIsFit(c, s.account, call.stage);
    if Starts(c, s, call) {
      var reserved := s.(account := Reserve(c, s.account, call.stage));
      var noted := Journal(reserved, AttemptEvent(call.stage, Reservation(c, call.stage)), true);
      var out := noted.(permit := Some(Permit(call.stage, 0, 0, 0, 0)));
      CallbacksKeepCall(c, out, call.script);
      CountsExactly(c, out, call.script, call.stage, Some(0));
      ConcludeCode(c, OnCallbacks(c, out, call.script), call);
    }
  }

  // ---- the sends of a call

  /** The extra requests that were stopped before they were sent. */
  function StoppedSends(extras: seq<Extra>): nat {
    if extras == [] then 0
    else StoppedSends(extras[..|extras| - 1]) + (if extras[|extras| - 1].delivery == No then 1 else 0)
  }

  lemma StoppedAppend(extras: seq<Extra>, e: Extra)
    ensures StoppedSends(extras + [e]) == StoppedSends(extras) + (if e.delivery == No then 1 else 0)
  {
    assert (extras + [e])[..|extras|] == extras;
  }

  /** At most one send is approved, at most one is blocked, and a blocked one is on record and halts the run. */
  ghost predicate SendsAgree(callbacks: nat, approved: nat, blocked: nat, halted: bool, before: nat,
                             extras: seq<Extra>)
  {
    && approved <= 1 && blocked <= 1 && approved + blocked <= callbacks && (blocked == 1 ==> halted)
    && StoppedSends(extras) == before + blocked
  }

  ghost predicate OpenSendsAgree(s: State, before: nat) {
    && s.permit.Some?
    && SendsAgree(s.permit.value.sends, s.permit.value.approved, s.permit.value.blocked, s.halted, before,
                  s.account.extras)
  }

  lemma CallbackSends(c: Config, s: State, e: Callback, before: nat)
    requires OpenSendsAgree(s, before)
    ensures OpenSendsAgree(OnCallback(c, s, e), before)
  {
    match e
    case ParametersCallback(_) =>
    case SendCallback(endpointOk, journalOk) => SendSends(c, s, endpointOk, journalOk, before);
    case ExtraCallback(o, journalOk) => ExtraSends(c, s, o, journalOk, before);
  }

  lemma SendSends(c: Config, s: State, endpointOk: bool, journalOk: bool, before: nat)
    requires OpenSendsAgree(s, before)
    ensures OpenSendsAgree(OnSend(s, endpointOk, journalOk), before)
  {
    StoppedAppend(s.account.extras, BlockedExtra(s.permit.value.stage));
  }

  lemma ExtraSends(c: Config, s: State, o: Observation, journalOk: bool, before: nat)
    requires OpenSendsAgree(s, before)
    ensures OpenSendsAgree(RecordExtra(c, s, o, journalOk), before)
  {
    StoppedAppend(s.account.extras, ExtraOf(c, o));
  }

  lemma {:induction false} CallbacksSends(c: Config, s: State, script: seq<Callback>, before: nat)
    requires OpenSendsAgree(s, before)
    ensures OpenSendsAgree(OnCallbacks(c, s, script), before)
    decreases |script|
  {
    if script != [] {
      CallbackSends(c, s, script[0], before);
      CallbacksSends(c, OnCallback(c, s, script[0]), script[1..], before);
    }
  }

  /** A second send, or one without exactly one check before it, is put on record as not delivered and stops the run. */
  lemma SendIsBlocked(s: State, endpointOk: bool, journalOk: bool)
    requires s.permit.Some? && !s.halted
    requires s.permit.value.sends != 0 || s.permit.value.parameterChecks != 1
    ensures var t, stage := OnSend(s, endpointOk, journalOk), s.permit.value.stage;
      && t.halted && t.position == s.position && t.evidence == s.evidence
      && t.account == s.account.(extras := s.account.extras + [
           Extra(stage, match stage case Router => Some(Haiku) case Generation => Some(Haiku)
                                    case Embedding => Some(Titan) case _ => None, No, None, None, None)])
  {}

  lemma ConcludeKeepsHalt(c: Config, s: State, call: Call)
    requires s.permit.Some? && call.stage in s.account.attempts
    ensures s.halted ==> Conclude(c, s, call).0.halted
    ensures Conclude(c, s, call).0.permit == s.permit
    ensures Conclude(c, s, call).0.account.extras == s.account.extras
  {
    ConcludeKeepsCall(c, s, call);
    var valid := call.outcome.Returns? && CountValid(s.permit.value, call.outcome.response.retries);
    ConcludeAccount(c, s, call, valid);
  }

  /** The send counts on record of any started call: one approved and one blocked at the most, and every blocked one
      stands in the list of extra requests as not delivered. */
  lemma InvokeSends(c: Config, s: State, call: Call)
    requires Starts(c, s, call)
    ensures call.stage in Invoke(c, s, call).0.account.attempts
    ensures Invoke(c, s, call).0.account.attempts[call.stage].sends.Some?
    ensures var t := Invoke(c, s, call).0; var sends := t.account.attempts[call.stage].sends.value;
      SendsAgree(sends.callbacks, sends.approved, sends.blocked, t.halted, StoppedSends(s.account.extras),
                 t.account.extras)
  {
    StartsExactly(c, s, call);
    var reserved := s.(account := Reserve(c, s.account, call.stage));
    var noted := Journal(reserved, AttemptEvent(call.stage, Reservation(c, call.stage)), true);
    var out := noted.(permit := Some(Permit(call.stage, 0, 0, 0, 0)));
    CallbacksKeepCall(c, out, call.script);
    CallbacksSends(c, out, call.script, StoppedSends(s.account.extras));
    ConcludeKeepsCall(c, OnCallbacks(c, out, call.script), call);
    ConcludeKeepsHalt(c, OnCallbacks(c, out, call.script), call);
  }
}
