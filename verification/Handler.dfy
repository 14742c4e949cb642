/** How the handler ends, and the result it emits. */
module Handler {
  import opened Results
  import opened Policy
  import opened PolicyBooks
  import opened Accounting

  datatype Status = StructuralSuccess | Stopped | Uncertain

  /** Result codes; `OtherStopCode` is any further code of the published vocabulary. */
  datatype HandlerCode =
    | ProviderOutcomeCode | LocalOrUncertainCode | EvidencePublicationCode
    | OtherStopCode | SmokeStopped | ResultTooLarge | ResultInvalid | LocalEvidenceUnavailable
    | ClientFactoryInvalid | ClientInitializationFailed | LocalExecutionUnavailable | ClientCloseFailed

  function CodeOf(stop: Stop): HandlerCode {
    match stop
    case UncertainProvider => ProviderOutcomeCode
    case LocalOrUncertainFailure => LocalOrUncertainCode
    case EvidencePublication => EvidencePublicationCode
    case ChainIncomplete => OtherStopCode
    case ResultTooLargeStop => ResultTooLarge
    case LocalEvidenceStop => LocalEvidenceUnavailable
    case OtherListed => OtherStopCode
    case NotListed => SmokeStopped
  }

  predicate UncertainCode(code: HandlerCode) {
    code == ProviderOutcomeCode || code == LocalOrUncertainCode || code == EvidencePublicationCode
  }

  /** Whether the result carries the answer of the run. */
  datatype Answer = NoAnswer | Answered

  datatype HandlerResult = HandlerResult(
    status: Status, code: Option<HandlerCode>, attempts: map<Stage, Attempt>, report: Report, events: seq<Event>,
    answer: Answer)

  /** What happens to the answer of a completed run. */
  datatype AfterRun = Bounded | BoundedInvalid | BoundedTooLarge | LocalFailure

  /** Every way the handler can go on once a policy exists: the clients are refused; the activation is
      refused or its claim record fails (which may still leave a stop record); a local failure comes first;
      or the body of the activation runs and leaves the policy in some state. */
  datatype Ending =
    | FactoryRejected(left: State, invalid: bool)
    | NotActivated(left: State, stop: Stop)
    | LocalBefore(left: State)
    | Ran(body: State, end: BodyEnd, completeOk: bool, stoppedOk: bool, after: AfterRun)

  /** The code of an unreadable journal is in the published vocabulary of stop codes, but nothing stops with it: the
      handler reports it by itself, and always as uncertain. */
  predicate IsRaised(stop: Stop) {
    stop != LocalEvidenceStop
  }

  /** A policy that was constructed and not used: nothing was attempted, spent or observed. */
  ghost predicate Unused(s: State) {
    Fresh(s) && s.evidence == {}
  }

  /** An activation that ran left the policy in some state a run can reach; otherwise it was not used. */
  ghost predicate RanReachably(c: Config, ending: Ending) {
    if ending.Ran? then Reachable(c, ending.body) else Unused(ending.left)
  }

  /** What the code can do: it runs reachably and stops with codes that are raised. */
  ghost predicate Possible(c: Config, ending: Ending) {
    && RanReachably(c, ending)
    && (ending.Ran? && ending.end.BodyStops? ==> IsRaised(ending.end.stop))
    && (ending.NotActivated? ==> IsRaised(ending.stop))
  }

  /** The end of an activation. */
  function Activation(ending: Ending): (State, Option<Stop>)
    requires ending.Ran?
  {
    CloseRun(ending.body, ending.end, ending.completeOk, ending.stoppedOk)
  }

  /** The policy when the handler takes over again, and the code that stopped the activation, if any. */
  function FinalState(ending: Ending): State {
    if ending.Ran? then Activation(ending).0 else ending.left
  }

  function StopOf(ending: Ending): Option<Stop> {
    if ending.Ran? then Activation(ending).1 else if ending.NotActivated? then Some(ending.stop) else None
  }

  /** A reservation that no returned usage replaced. */
  predicate Unsettled(attempts: map<Stage, Attempt>) {
    exists stage | stage in attempts :: !attempts[stage].settled && attempts[stage].reservation != 0
  }

  datatype Verdict = Verdict(status: Status, code: Option<HandlerCode>, answer: Answer)

  function StopVerdict(s: State, stop: Stop): Verdict {
    var uncertain := UncertainCode(CodeOf(stop)) || s.account.marks != {} || Unsettled(s.account.attempts);
    Verdict(if uncertain then Uncertain else Stopped, Some(CodeOf(stop)), NoAnswer)
  }

  function LocalVerdict(s: State): Verdict {
    Verdict(if s.account.attempts != map[] then Uncertain else Stopped, Some(LocalExecutionUnavailable), NoAnswer)
  }

  /** The status and code before the clients are closed. */
  function VerdictFrom(s: State, stop: Option<Stop>, ending: Ending): Verdict {
    if stop.Some? then StopVerdict(s, stop.value)
    else match ending
      case FactoryRejected(_, invalid) =>
        Verdict(Stopped, Some(if invalid then ClientFactoryInvalid else ClientInitializationFailed), NoAnswer)
      case Ran(_, _, _, _, Bounded) => Verdict(StructuralSuccess, None, Answered)
      case Ran(_, _, _, _, BoundedInvalid) => Verdict(Stopped, Some(ResultInvalid), NoAnswer)
      case Ran(_, _, _, _, BoundedTooLarge) => Verdict(Stopped, Some(ResultTooLarge), NoAnswer)
      case _ => LocalVerdict(s)
  }

  /** Closing the clients, reading back the journal, and bounding the output. */
  datatype Closing = Closing(closeFails: bool, evidenceFails: bool, oversize: bool)

  function EmittedFrom(c: Config, s: State, v: Verdict, closing: Closing): HandlerResult {
    if closing.oversize then
      HandlerResult(Uncertain, Some(ResultTooLarge), s.account.attempts, ReportOf(c, s.account, true), [], NoAnswer)
    else
      var last := if closing.evidenceFails then Verdict(Uncertain, Some(LocalEvidenceUnavailable), NoAnswer)
        else if closing.closeFails then Verdict(Uncertain, Some(ClientCloseFailed), NoAnswer)
        else v;
      HandlerResult(last.status, last.code, s.account.attempts, ReportOf(c, s.account, false),
                    if closing.evidenceFails then [] else s.journal, last.answer)
  }

  function Emitted(c: Config, ending: Ending, closing: Closing): HandlerResult {
    var s := FinalState(ending);
    EmittedFrom(c, s, VerdictFrom(s, StopOf(ending), ending), closing)
  }

  /** What is emitted is made of the final state, the stop of the run and the verdict from both. */
  lemma EmittedForm(c: Config, ending: Ending, closing: Closing, s: State, stop: Option<Stop>, out: HandlerResult)
    requires s == FinalState(ending) && stop == StopOf(ending) && out == Emitted(c, ending, closing)
    ensures out == EmittedFrom(c, s, VerdictFrom(s, stop, ending), closing)
  {}

  /** The closing part of `handler`: the verdict is overwritten step by step. */
  method Finish(c: Config, s: State, stop: Option<Stop>, ending: Ending, closing: Closing)
    returns (output: HandlerResult)
    requires ending.NotActivated? ==> stop.Some?
    ensures output == EmittedFrom(c, s, VerdictFrom(s, stop, ending), closing)
  {
    var status, code, answer := Stopped, Some(ClientInitializationFailed), NoAnswer;
    if stop.Some? {
      var v := StopVerdict(s, stop.value);
      status, code := v.status, v.code;
    } else {
      match ending {
        case FactoryRejected(_, invalid) =>
          if invalid {
            code := Some(ClientFactoryInvalid);
          }
        case Ran(_, _, _, _, Bounded) => status, code, answer := StructuralSuccess, None, Answered;
        case Ran(_, _, _, _, BoundedInvalid) => code := Some(ResultInvalid);
        case Ran(_, _, _, _, BoundedTooLarge) => code := Some(ResultTooLarge);
        case _ =>
          code := Some(LocalExecutionUnavailable);
          status := if s.account.attempts != map[] then Uncertain else Stopped;
      }
    }
    if closing.closeFails {
      status, code, answer := Uncertain, Some(ClientCloseFailed), NoAnswer;
    }
    var events := s.journal;
    if closing.evidenceFails {
      events, status, code, answer := [], Uncertain, Some(LocalEvidenceUnavailable), NoAnswer;
    }
    output := HandlerResult(status, code, s.account.attempts, ReportOf(c, s.account, false), events, answer);
    if closing.oversize {
      output := HandlerResult(Uncertain, Some(ResultTooLarge), s.account.attempts, ReportOf(c, s.account, true), [],
        NoAnswer);
    }
  }

  /** `handler`, once the event is validated. */
  method Handle(c: Config, ending: Ending, closing: Closing) returns (output: HandlerResult)
    ensures output == Emitted(c, ending, closing)
  {
    output := Finish(c, FinalState(ending), StopOf(ending), ending, closing);
  }
}
