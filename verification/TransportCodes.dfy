/** Which failure a use of the transport is known by. */
module TransportCodes {
  import opened Results
  import opened Transport

  /** What is wrong first with a response, if anything is: retries, version, fields, log, body, and its close. */
  function FirstOfResponse(settings: Settings, r: Response, end: ReadEnd): Option<Failure> {
    if r.metadata.retries != Some(0) then Some(RetryInvalid)
    else if VersionDiffers(settings, r) then Some(VersionMismatch)
    else if MetadataIsInvalid(r.metadata) || ResponseIsBad(settings, r.metadata, r) then Some(ResponseInvalid)
    else if settings.tail && r.log.NoLog? then Some(LogMissing)
    else if settings.tail && r.log.LogInvalidForm? then Some(LogInvalid)
    else if !r.payload.Readable? then Some(ResponseInvalid)
    else if end.EndsOther? then Some(BodyInvalid)
    else if end.EndsRaising? then Some(OutcomeUnknown)
    else if end.EndsTooLarge? then Some(BodyTooLarge)
    else if end.EndsDefect? || r.payload.closing.CloseDefect? then Some(DefectPropagated)
    else if r.payload.closing.CloseRaises? then Some(CloseFailed)
    else None
  }

  /** What is wrong first with a use, if anything is. */
  function FirstOfUse(settings: Settings, outcome: Outcome, end: ReadEnd, closing: CloseResult): Option<Failure> {
    var first := match outcome
      case NotADict => Some(ResponseInvalid)
      case Dict(response) => FirstOfResponse(settings, response, end)
      case RaisesAdapter(failure) => Some(failure)
      case RaisesService(_) => Some(ServiceError)
      case RaisesTransport => Some(OutcomeUnknown)
      case RaisesDefect => Some(DefectPropagated);
    if first.Some? then first
    else match closing
      case Closes => None
      case CloseRaises => Some(ClientCloseFailed)
      case CloseDefect(_) => Some(DefectPropagated)
  }

  function HeadOf(f: Failures): Option<Failure> {
    if f == [] then None else Some(f[0])
  }

  lemma HeadAfterMetadata(settings: Settings, f: Failures, metadata: Metadata, response: Option<Response>)
    ensures HeadOf(AfterMetadata(settings, f, metadata, response)) == (
      if f != [] then Some(f[0])
      else if metadata.retries != Some(0) then Some(RetryInvalid)
      else if response.Some? && VersionDiffers(settings, response.value) then Some(VersionMismatch)
      else if IsInvalid(settings, metadata, response) then Some(ResponseInvalid) else None)
  {}

  lemma HeadAfterBody(f: Failures, payload: Payload, end: ReadEnd)
    ensures HeadOf(AfterBody(f, payload, end)) == (
      if f != [] then Some(f[0])
      else if !payload.Readable? then Some(ResponseInvalid)
      else if end.EndsOther? then Some(BodyInvalid)
      else if end.EndsRaising? then Some(OutcomeUnknown)
      else if end.EndsTooLarge? then Some(BodyTooLarge)
      else if end.EndsDefect? || payload.closing.CloseDefect? then Some(DefectPropagated)
      else if payload.closing.CloseRaises? then Some(CloseFailed)
      else None)
  {}

  lemma HeadAfterResponse(settings: Settings, r: Response, end: ReadEnd)
    ensures HeadOf(AfterResponse(settings, [], r, end)) == FirstOfResponse(settings, r, end)
  {
    var checked := AfterMetadata(settings, [], r.metadata, Some(r));
    HeadAfterMetadata(settings, [], r.metadata, Some(r));
    HeadAfterBody(if settings.tail then AfterLog(checked, r.log) else checked, r.payload, end);
  }

  lemma HeadAfterClose(f: Failures, closing: CloseResult, propagating: bool)
    ensures HeadOf(AfterClose(f, closing, ClientCloseFailed, propagating)) == (
      if f != [] then Some(f[0])
      else match closing
        case Closes => None
        case CloseRaises => Some(ClientCloseFailed)
        case CloseDefect(_) => Some(if propagating then ClientCloseFailed else DefectPropagated))
  {}

  lemma HeadAfterOutcome(settings: Settings, outcome: Outcome, end: ReadEnd)
    ensures outcome.Dict? ==>
      HeadOf(AfterOutcome(settings, [], outcome, end)) == FirstOfResponse(settings, outcome.response, end)
    ensures !outcome.Dict? && !outcome.RaisesDefect? ==>
      AfterOutcome(settings, [], outcome, end) != [] && OutcomePropagates(outcome, end) == false
    ensures outcome.RaisesService? ==> HeadOf(AfterOutcome(settings, [], outcome, end)) == Some(ServiceError)
  {
    if outcome.Dict? {
      HeadAfterResponse(settings, outcome.response, end);
    } else if outcome.RaisesService? && outcome.metadata.Some? {
      HeadAfterMetadata(settings, [ServiceError], outcome.metadata.value, None);
    }
  }

  /** The first failure listed, which is the code of the use, is the first thing that is wrong with it. */
  lemma FirstFailure(settings: Settings, outcome: Outcome, end: ReadEnd, closing: CloseResult)
    ensures HeadOf(UseFailures(settings, outcome, end, closing)) == FirstOfUse(settings, outcome, end, closing)
  {
    var f, propagates := AfterOutcome(settings, [], outcome, end), OutcomePropagates(outcome, end);
    HeadAfterOutcome(settings, outcome, end);
    HeadAfterClose(if propagates then WithDefect(f) else f, closing, propagates);
  }

  /** A defect leaves the use exactly when it came from outside the service: raised by the client, by the reading or the
      closing of the body without being of the service's class, or by the closing of the client. */
  lemma PropagatesExactly(outcome: Outcome, end: ReadEnd, closing: CloseResult)
    ensures UsePropagates(outcome, end, closing) <==>
      || closing.CloseDefect? || outcome.RaisesDefect?
      || (outcome.Dict? && match outcome.response.payload
          case Unreadable => false
          case CloseOnly(bodyClosing) => bodyClosing == CloseDefect(false)
          case Readable(_, bodyClosing) =>
            end == EndsDefect(false) || (!end.EndsDefect? && bodyClosing == CloseDefect(false)))
  {}
}
