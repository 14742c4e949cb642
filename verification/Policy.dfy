/** The single-run budget and permit state machine, as functions on its state.
    Amounts are exact, in units of 10^-18 USD: a price has at most twelve decimals per
    million tokens, so one token costs a whole number of units. */
module Policy {
  import opened Results

  datatype Provider = Haiku | Titan

  datatype Stage = Router | Index | Metadata | Embedding | Generation

  /** The five stages in their only permitted order. */
  function StageAt(i: nat): Stage {
    if i == 0 then Router else if i == 1 then Index else if i == 2 then Metadata else if i == 3 then Embedding
    else Generation
  }

  const STAGES := 5

  function OrdinalOf(stage: Stage): nat {
    match stage case Router => 0 case Index => 1 case Metadata => 2 case Embedding => 3 case Generation => 4
  }

  predicate Model(stage: Stage) { stage != Index && stage != Metadata }

  function ProviderOf(stage: Stage): Provider { if stage == Embedding then Titan else Haiku }

  datatype Usage = Usage(input: nat, output: nat)

  /** Validated evidence: token bound and unit prices. */
  datatype Price = Price(inputBound: nat, input: nat, output: nat)

  datatype Config = Config(haiku: Price, titan: Price, routerTokens: nat, generationTokens: nat,
                           capHaiku: int, capTitan: int, capTotal: int)

  predicate ValidConfig(c: Config) {
    && c.haiku.inputBound > 0 && c.haiku.input > 0
    && c.titan.inputBound > 0 && c.titan.input > 0 && c.titan.output == 0
    && c.capHaiku > 0 && c.capTitan > 0 && c.capTotal > 0
  }

  function PriceOf(c: Config, p: Provider): Price { if p == Haiku then c.haiku else c.titan }

  function CapOf(c: Config, p: Provider): int { if p == Haiku then c.capHaiku else c.capTitan }

  function OutputBound(c: Config, stage: Stage): nat {
    if stage == Router then c.routerTokens else if stage == Generation then c.generationTokens else 0
  }

  function Charge(u: Usage, price: Price): nat { u.input * price.input + u.output * price.output }

  /** What a stage reserves before its call. */
  function Reservation(c: Config, stage: Stage): nat {
    if Model(stage) then
      var price := PriceOf(c, ProviderOf(stage));
      Charge(Usage(price.inputBound, OutputBound(c, stage)), price)
    else 0
  }

  // ---- state

  datatype Delivery = Yes | No | Unknown

  datatype Attribution = AuthorizedRequest | UnattributedResponse

  datatype SendChecks = SendChecks(callbacks: nat, approved: nat, blocked: nat)

  datatype Attempt = Attempt(reservation: nat, settled: bool, hold: nat, delivery: Delivery, retries: Option<nat>,
                             usage: Option<Usage>, attribution: Option<Attribution>, charge: Option<nat>,
                             sends: Option<SendChecks>)

  datatype Extra = Extra(stage: Stage, provider: Option<Provider>, delivery: Delivery, usage: Option<Usage>,
                         charge: Option<nat>, evidence: Option<string>)

  /** What `unestablished_stages` may contain. */
  datatype Mark = OfStage(stage: Stage) | UnidentifiedModelRequest

  datatype Permit = Permit(stage: Stage, parameterChecks: nat, sends: nat, approved: nat, blocked: nat)

  datatype Event =
    | ClaimEvent | AttemptEvent(stage: Stage, reservation: nat) | UsageEvent(stage: Stage, overrun: bool)
    | BlockedEvent | ExtraEvent | CompleteEvent | StoppedEvent

  /** The monetary record: exposure, attempts, extra requests and what they put in doubt. */
  datatype Account = Account(haiku: int, titan: int, attempts: map<Stage, Attempt>, extras: seq<Extra>,
                             marks: set<Mark>, violated: bool)

  datatype State = State(active: bool, position: nat, halted: bool, permit: Option<Permit>, account: Account,
                         evidence: set<string>, journal: seq<Event>)

  /** A policy just constructed. */
  function Initial(c: Config): State {
    State(false, 0, false, None, Account(0, 0, map[], [], {}, false), {}, [])
  }

  function Exposure(a: Account, p: Provider): int { if p == Haiku then a.haiku else a.titan }

  function AddExposure(a: Account, p: Provider, amount: int): Account {
    if p == Haiku then a.(haiku := a.haiku + amount) else a.(titan := a.titan + amount)
  }

  /** Writing a record either succeeds or halts the run. */
  function Journal(s: State, event: Event, ok: bool): State {
    if ok then s.(journal := s.journal + [event]) else s.(halted := true)
  }

  // ---- callbacks of the client

  datatype ObservedUsage = NoUsage | InvalidUsage | ReportedUsage(usage: Usage)

  /** An independently identified request that was already observed. */
  datatype Observation = Observation(stage: Stage, delivery: Delivery, hash: string, hashValid: bool, priced: bool,
                                     usage: ObservedUsage)

  /** What the SDK does while a call is out. Flags say whether the request matches the
      permit, whether the endpoint is the reviewed one, and whether the record was written. */
  datatype Callback =
    | ParametersCallback(matches: bool)
    | SendCallback(endpointOk: bool, journalOk: bool)
    | ExtraCallback(observation: Observation, journalOk: bool)

  function OnParameters(s: State, matches: bool): State {
    if s.permit.Some? && matches then
      s.(permit := Some(s.permit.value.(parameterChecks := s.permit.value.parameterChecks + 1)))
    else s
  }

  function BlockedExtra(stage: Stage): Extra {
    Extra(stage, if Model(stage) then Some(ProviderOf(stage)) else None, No, None, None, None)
  }

  function AppendExtra(a: Account, extra: Extra): Account { a.(extras := a.extras + [extra]) }

  function Halt(s: State): State { s.(halted := true) }

  function OnSend(s: State, endpointOk: bool, journalOk: bool): State {
    if s.permit.None? || s.halted then s else
      var permit := s.permit.value.(sends := s.permit.value.sends + 1);
      if permit.sends != 1 || permit.parameterChecks != 1 then
        var blocked := s.(permit := Some(permit.(blocked := permit.blocked + 1)),
                          account := AppendExtra(s.account, BlockedExtra(permit.stage)));
        Halt(Journal(blocked, BlockedEvent, journalOk))
      else
        s.(permit := Some(if endpointOk then permit.(approved := permit.approved + 1) else permit))
  }

  predicate ValidReference(s: State, o: Observation) {
    Model(o.stage) && o.delivery != No && o.hashValid && o.hash !in s.evidence
  }

  function AcceptedUsage(o: Observation): Option<Usage> {
    if o.usage.ReportedUsage? && (ProviderOf(o.stage) == Haiku || o.usage.usage.output == 0) then Some(o.usage.usage)
    else None
  }

  function ExtraCharge(c: Config, o: Observation): Option<nat> {
    if AcceptedUsage(o).Some? && o.priced then Some(Charge(AcceptedUsage(o).value, PriceOf(c, ProviderOf(o.stage))))
    else None
  }

  function ExtraOf(c: Config, o: Observation): Extra {
    Extra(o.stage, Some(ProviderOf(o.stage)), o.delivery, AcceptedUsage(o), ExtraCharge(c, o), Some(o.hash))
  }

  function Mention(a: Account, mark: Mark): Account { a.(marks := a.marks + {mark}) }

  /** An observed request: its actual charge is exposure that nothing authorised. */
  function ObserveExtra(c: Config, a: Account, o: Observation): Account {
    var charge := ExtraCharge(c, o);
    var seen := AppendExtra(a, ExtraOf(c, o));
    var priced := if charge.Some?
      then AddExposure(seen, ProviderOf(o.stage), charge.value).(violated := a.violated || charge.value > 0) else seen;
    if charge.None? || o.delivery == Unknown then Mention(priced, OfStage(o.stage)) else priced
  }

  /** `record_extra_request` */
  function RecordExtra(c: Config, s: State, o: Observation, journalOk: bool): State {
    if !s.active then s
    else if !ValidReference(s, o) then Halt(s).(account := Mention(s.account, UnidentifiedModelRequest))
    else
      var seen := Halt(s).(evidence := s.evidence + {o.hash}, account := ObserveExtra(c, s.account, o));
      Journal(seen, ExtraEvent, journalOk)
  }

  function OnCallback(c: Config, s: State, e: Callback): State {
    match e
    case ParametersCallback(matches) => OnParameters(s, matches)
    case SendCallback(endpointOk, journalOk) => OnSend(s, endpointOk, journalOk)
    case ExtraCallback(o, journalOk) => RecordExtra(c, s, o, journalOk)
  }

  function OnCallbacks(c: Config, s: State, script: seq<Callback>): State
    decreases |script|
  {
    if script == [] then s else OnCallbacks(c, OnCallback(c, s, script[0]), script[1..])
  }

  // ---- one call

  /** Reasons for which a call is refused before anything is reserved. */
  datatype Precheck = Passes | ClientsMissing | OperationInvalid | ModelBindingInvalid | RequestInvalid
                    | OutputBoundInvalid | InputBindingMismatch

  /** Codes raised by the hooks, the bounded reader and the local checks around a call. */
  datatype LocalCode =
    | UnexpectedRequest | UnexpectedSend | ExtraAttempt | ExtraSend | EndpointInvalid | ExtraEvidenceInvalid
    | HookPublicationFailed | BodyMissing | BodyInvalid | BodyTooLarge | ObjectBindingMismatch | JsonInvalid

  datatype Code =
    | ChainOrderInvalid | Refused(reason: Precheck) | ReservationExhausted | EvidencePublicationFailed
    | Raised(local: LocalCode) | UncertainProviderOutcome | UsageInvalid | AttemptCountInvalid
    | ExtraRequestObserved | UsageOverrun | ModelOutputInvalid

  datatype Decoding = Decoded | DecodingStops(code: LocalCode) | DecodingRaises

  datatype Response = Response(retries: Option<int>, decoding: Decoding, usage: Option<Usage>, outputOk: bool)

  datatype Outcome = RaisesStop(code: LocalCode) | RaisesOther | Returns(response: Response)

  /** Everything about one call that the policy does not decide. */
  datatype Call = Call(stage: Stage, precheck: Precheck, attemptJournalOk: bool, script: seq<Callback>,
                       outcome: Outcome, usageJournalOk: bool)

  /** The stage is next in the chain and nothing stopped the run. */
  predicate Permitted(s: State, stage: Stage) {
    s.active && !s.halted && s.position < STAGES && StageAt(s.position) == stage
  }

  /** The reservation stays within the provider's cap and the total cap. */
  predicate Fits(c: Config, a: Account, stage: Stage) {
    Model(stage) ==>
      && Exposure(a, ProviderOf(stage)) + Reservation(c, stage) <= CapOf(c, ProviderOf(stage))
      && a.haiku + a.titan + Reservation(c, stage) <= c.capTotal
  }

  function Enter(a: Account, stage: Stage, attempt: Attempt): Account { a.(attempts := a.attempts[stage := attempt]) }

  function FreshAttempt(amount: nat): Attempt {
    Attempt(amount, false, amount, Unknown, None, None, None, None, None)
  }

  function Reserve(c: Config, a: Account, stage: Stage): Account {
    var amount := Reservation(c, stage);
    Enter(if Model(stage) then AddExposure(a, ProviderOf(stage), amount) else a, stage, FreshAttempt(amount))
  }

  predicate CountValid(permit: Permit, retries: Option<int>) {
    retries == Some(0) && permit.sends == 1 && permit.parameterChecks == 1 && permit.approved == 1
  }

  /** Retry metadata and delivery of a returned response. */
  function Received(a: Account, stage: Stage, retries: Option<int>, valid: bool): Account
    requires stage in a.attempts
  {
    var known := if retries.Some? && retries.value >= 0 then Some(retries.value as nat) else None;
    var entered := Enter(a, stage, a.attempts[stage].(retries := known, delivery := if valid then Yes else Unknown));
    if valid then entered else Mention(entered, OfStage(stage))
  }

  predicate Exceeded(c: Config, stage: Stage, u: Usage) {
    || u.input > PriceOf(c, ProviderOf(stage)).inputBound
    || u.output > OutputBound(c, stage)
    || Charge(u, PriceOf(c, ProviderOf(stage))) > Reservation(c, stage)
  }

  /** The attempt once the returned usage is known. */
  function SettledAttempt(c: Config, before: Attempt, stage: Stage, u: Usage, attributable: bool): Attempt {
    before.(
      usage := Some(u), charge := Some(Charge(u, PriceOf(c, ProviderOf(stage)))), settled := attributable,
      attribution := Some(if attributable then AuthorizedRequest else UnattributedResponse),
      hold := if attributable then 0 else Reservation(c, stage))
  }

  /** `_returned_usage` up to its journal record: an attributable charge replaces its
      reservation, any other adds to it. */
  function Settle(c: Config, a: Account, stage: Stage, u: Usage, attributable: bool): Account
    requires stage in a.attempts
  {
    var actual := Charge(u, PriceOf(c, ProviderOf(stage)));
    var entered := Enter(a, stage, SettledAttempt(c, a.attempts[stage], stage, u, attributable));
    AddExposure(entered, ProviderOf(stage), if attributable then actual - Reservation(c, stage) else actual)
      .(violated := a.violated || Exceeded(c, stage, u))
  }

  /** Titan reports input tokens only. */
  function UsageOf(stage: Stage, u: Usage): Usage { if stage == Embedding then Usage(u.input, 0) else u }

  /** What happens once the client has returned or raised. */
  function Conclude(c: Config, s: State, call: Call): (State, Option<Code>)
    requires s.permit.Some? && call.stage in s.account.attempts
  {
    match call.outcome
    case RaisesStop(code) => (Halt(s), Some(Raised(code)))
    case RaisesOther => (Halt(s), Some(UncertainProviderOutcome))
    case Returns(response) =>
      var valid := CountValid(s.permit.value, response.retries);
      var received := s.(account := Received(s.account, call.stage, response.retries, valid));
      match response.decoding
      case DecodingStops(code) => (Halt(received), Some(Raised(code)))
      case DecodingRaises => (Halt(received), Some(UncertainProviderOutcome))
      case Decoded => Judge(c, received, call, response, valid)
  }

  function Judge(c: Config, s: State, call: Call, response: Response, valid: bool): (State, Option<Code>)
    requires call.stage in s.account.attempts
  {
    if !Model(call.stage) then
      if !valid then (Halt(s), Some(AttemptCountInvalid))
      else if s.halted then (Halt(s), Some(ExtraRequestObserved))
      else (s.(position := s.position + 1), None)
    else if response.usage.None? then (Halt(s), Some(UsageInvalid))
    else
      var u := UsageOf(call.stage, response.usage.value);
      var exceeded := Exceeded(c, call.stage, u);
      var settled := s.(account := Settle(c, s.account, call.stage, u, valid));
      var noted := Journal(settled, UsageEvent(call.stage, exceeded), call.usageJournalOk);
      if !call.usageJournalOk then (noted, Some(EvidencePublicationFailed))
      else if !valid then (Halt(noted), Some(AttemptCountInvalid))
      else if noted.halted then (Halt(noted), Some(ExtraRequestObserved))
      else if exceeded then (Halt(noted), Some(UsageOverrun))
      else if ProviderOf(call.stage) == Haiku && !response.outputOk then (Halt(noted), Some(ModelOutputInvalid))
      else (noted.(position := noted.position + 1), None)
  }

  /** The closing block of a call: the send counts are kept and the permit is withdrawn. */
  function Withdraw(s: State, stage: Stage): State
    requires s.permit.Some? && stage in s.account.attempts
  {
    var p := s.permit.value;
    var closed := s.account.attempts[stage].(sends := Some(SendChecks(p.sends, p.approved, p.blocked)));
    s.(permit := None, account := Enter(s.account, stage, closed))
  }

  /** A call after its reservation was recorded. */
  function Dispatch(c: Config, s: State, call: Call): (State, Option<Code>)
    requires call.stage in s.account.attempts
  {
    var out := s.(permit := Some(Permit(call.stage, 0, 0, 0, 0)));
    CallbacksKeepCall(c, out, call.script);
    var back := OnCallbacks(c, out, call.script);
    ConcludeKeepsCall(c, back, call);
    var ended := Conclude(c, back, call);
    (Withdraw(ended.0, call.stage), ended.1)
  }

  /** `invoke` */
  function Invoke(c: Config, s: State, call: Call): (State, Option<Code>) {
    if !Permitted(s, call.stage) then (s, Some(ChainOrderInvalid))
    else if call.precheck != Passes then (s, Some(Refused(call.precheck)))
    else if !Fits(c, s.account, call.stage) then (s, Some(ReservationExhausted))
    else
      var reserved := s.(account := Reserve(c, s.account, call.stage));
      var noted := Journal(reserved, AttemptEvent(call.stage, Reservation(c, call.stage)), call.attemptJournalOk);
      if !call.attemptJournalOk then (noted, Some(EvidencePublicationFailed))
      else Dispatch(c, noted, call)
  }

  // ---- callbacks never lose the open call

  lemma ObserveKeepsAttempts(c: Config, a: Account, o: Observation)
    ensures ObserveExtra(c, a, o).attempts == a.attempts
  {}

  lemma CallbackKeepsCall(c: Config, s: State, e: Callback)
    ensures OnCallback(c, s, e).permit.Some? <==> s.permit.Some?
    ensures s.permit.Some? ==> OnCallback(c, s, e).permit.value.stage == s.permit.value.stage
    ensures OnCallback(c, s, e).account.attempts == s.account.attempts
    ensures OnCallback(c, s, e).position == s.position && OnCallback(c, s, e).active == s.active
    ensures s.halted ==> OnCallback(c, s, e).halted
  {
    match e
    case ParametersCallback(_) =>
    case SendCallback(_, _) =>
    case ExtraCallback(o, _) => ObserveKeepsAttempts(c, s.account, o);
  }

  lemma {:induction false} CallbacksKeepCall(c: Config, s: State, script: seq<Callback>)
    requires s.permit.Some?
    ensures OnCallbacks(c, s, script).permit.Some?
    ensures OnCallbacks(c, s, script).permit.value.stage == s.permit.value.stage
    ensures OnCallbacks(c, s, script).account.attempts == s.account.attempts
    ensures OnCallbacks(c, s, script).position == s.position && OnCallbacks(c, s, script).active == s.active
    decreases |script|
  {
    if script != [] {
      CallbackKeepsCall(c, s, script[0]);
      CallbacksKeepCall(c, OnCallback(c, s, script[0]), script[1..]);
    }
  }

  lemma JudgeKeepsCall(c: Config, s: State, call: Call, response: Response, valid: bool)
    requires call.stage in s.account.attempts
    ensures Judge(c, s, call, response, valid).0.permit == s.permit
    ensures call.stage in Judge(c, s, call, response, valid).0.account.attempts
  {
    if Model(call.stage) && response.usage.Some? {
      var u := UsageOf(call.stage, response.usage.value);
      var settled := s.(account := Settle(c, s.account, call.stage, u, valid));
      assert settled.permit == s.permit && call.stage in settled.account.attempts;
      var noted := Journal(settled, UsageEvent(call.stage, Exceeded(c, call.stage, u)), call.usageJournalOk);
      assert noted.permit == s.permit && noted.account == settled.account;
    }
  }

  lemma ConcludeKeepsCall(c: Config, s: State, call: Call)
    requires s.permit.Some? && call.stage in s.account.attempts
    ensures Conclude(c, s, call).0.permit == s.permit && call.stage in Conclude(c, s, call).0.account.attempts
  {
    if call.outcome.Returns? {
      var response := call.outcome.response;
      var valid := CountValid(s.permit.value, response.retries);
      var received := s.(account := Received(s.account, call.stage, response.retries, valid));
      assert received.permit == s.permit && call.stage in received.account.attempts;
      JudgeKeepsCall(c, received, call, response, valid);
    }
  }

  // ---- the body of an activation

  /** Anything the code under an active policy does with it. */
  datatype Op = InvokeOp(call: Call) | ExtraOp(observation: Observation, journalOk: bool) | FailOp

  function Step(c: Config, s: State, op: Op): State {
    match op
    case InvokeOp(call) => Invoke(c, s, call).0
    case ExtraOp(o, journalOk) => RecordExtra(c, s, o, journalOk)
    case FailOp => Halt(s)
  }

  function Steps(c: Config, s: State, ops: seq<Op>): State
    decreases |ops|
  {
    if ops == [] then s else Steps(c, Step(c, s, ops[0]), ops[1..])
  }

  /** Codes that end an activation. Codes outside the published vocabulary are `NotListed`. */
  datatype Stop =
    | UncertainProvider | LocalOrUncertainFailure | EvidencePublication | ChainIncomplete
    | ResultTooLargeStop | LocalEvidenceStop | OtherListed | NotListed

  /** How the code under an active policy ends. */
  datatype BodyEnd = BodyReturns | BodyStops(stop: Stop) | BodyRaises

  /** `activate` after the body: a complete chain is recorded as such, everything else halts. */
  function CloseRun(s: State, end: BodyEnd, completeOk: bool, stoppedOk: bool): (State, Option<Stop>) {
    var first := match end
      case BodyReturns => if !s.halted && s.position == STAGES then None else Some(ChainIncomplete)
      case BodyStops(code) => Some(code)
      case BodyRaises => Some(LocalOrUncertainFailure);
    var noted := if first.None? && completeOk then s.journal + [CompleteEvent] else s.journal;
    var stop := if first.None? && !completeOk then Some(EvidencePublication) else first;
    if stop.None? then (State(false, s.position, s.halted, None, s.account, s.evidence, noted), None)
    else
      (State(false, s.position, true, None, s.account, s.evidence, if stoppedOk then noted + [StoppedEvent] else noted),
       if stoppedOk then stop else Some(EvidencePublication))
  }

  /** The state in which the body of an activation starts. */
  function Activated(c: Config): State { Initial(c).(active := true, journal := [ClaimEvent]) }

  function RunOf(c: Config, ops: seq<Op>): State { Steps(c, Activated(c), ops) }
}
