/** The one-use parent transport: hooks, bounded reading, and failures that latch. */
module Transport {
  import opened Results

  newtype byte = x: int | 0 <= x < 256

  type Bytes = seq<byte>

  const LIMIT := 131072
  const CHUNK := 8192

  datatype Failure =
    | RequestInvalid | SendBlocked | ServiceError | OutcomeUnknown | ResponseInvalid | BodyInvalid | BodyTooLarge
    | CloseFailed | ClientCloseFailed | HooksInvalid | RetryInvalid | VersionMismatch | DefectPropagated
    | LogMissing | LogInvalid | OtherAdapterCode

  datatype Code = NotReturned | Returned | Failed(failure: Failure)

  // ---- the injected client

  /** A callback during the call, with the outcome of its comparison to the pinned request. */
  datatype Hook = ParametersHook(matches: bool) | SendHook(matches: bool)

  /** What one read returns: bytes, something else, an expected error, or any other error;
      such a defect may happen to be of the service's error class. */
  datatype ReadResult = Part(bytes: Bytes) | NotBytes | ReadRaises | ReadDefect(service: bool)

  datatype CloseResult = Closes | CloseRaises | CloseDefect(service: bool)

  /** The reader answers the k-th read of at most n bytes as it likes. */
  type Reader = (nat, nat) -> ReadResult

  datatype Payload = Unreadable | CloseOnly(closing: CloseResult) | Readable(read: Reader, closing: CloseResult)

  /** The fields of a response that are checked; None stands for absent or of the wrong form. */
  datatype Metadata = Metadata(requestId: bool, httpStatus: Option<int>, retries: Option<int>)

  datatype Response = Response(metadata: Metadata, status: Option<int>, version: Option<string>, errorKnown: bool,
                               log: LogResult, payload: Payload)

  datatype LogResult = NoLog | LogInvalidForm | LogDecoded

  datatype Outcome =
    | NotADict | Dict(response: Response) | RaisesAdapter(code: Failure)
    | RaisesService(metadata: Option<Metadata>) | RaisesTransport | RaisesDefect

  /** The pinned request, as far as the response is compared with it. */
  datatype Settings = Settings(tail: bool, qualifier: string, latest: bool)

  // ---- the bytes a reader delivers

  function Asked(size: nat): nat {
    if LIMIT + 1 - size < CHUNK then (if size <= LIMIT + 1 then LIMIT + 1 - size else 0) else CHUNK
  }

  /** A read asks for at most 8192 bytes, and for at most one byte more than may still come. */
  lemma AskedExactly(size: nat)
    requires size <= 131072
    ensures 0 < Asked(size) <= 8192 && Asked(size) <= 131073 - size
    ensures Asked(size) == 8192 || Asked(size) == 131073 - size
  {}

  /** What the first k reads delivered, while they deliver bytes. */
  ghost function Consumed(read: Reader, k: nat): Bytes {
    if k == 0 then [] else
      var before := Consumed(read, k - 1);
      var result := read(k - 1, Asked(|before|));
      before + (if result.Part? then result.bytes else [])
  }

  ghost predicate DeliversAt(read: Reader, k: nat) {
    var result := read(k, Asked(|Consumed(read, k)|));
    result.Part? && result.bytes != []
  }

  /** The body is everything the reader delivers before it ends the stream, within the limit. */
  ghost predicate WholeStream(read: Reader, body: Bytes) {
    exists n: nat ::
      && (forall k: nat | k < n :: DeliversAt(read, k))
      && read(n, Asked(|Consumed(read, n)|)) == Part([])
      && body == Consumed(read, n) && |body| <= 131072
  }

  /** The reader delivers a stream that ends, with at most the limit of bytes. */
  ghost predicate EndsWithinLimit(read: Reader) {
    exists body: Bytes :: WholeStream(read, body)
  }

  /** How a stream ends: properly, with something that is no bytes, with an expected error, with a defect, or too
      large. */
  datatype ReadEnd = Ended | EndsOther | EndsRaising | EndsDefect(service: bool) | EndsTooLarge

  /** A read that delivers bytes and stays within the limit. */
  ghost predicate GoesOnAt(read: Reader, k: nat) {
    DeliversAt(read, k) && |Consumed(read, k + 1)| <= 131072
  }

  /** The first n reads deliver within the limit, and the next one ends the stream. */
  ghost predicate EndsAs(read: Reader, n: nat, end: ReadEnd) {
    && (forall k: nat | k < n :: GoesOnAt(read, k))
    && match read(n, Asked(|Consumed(read, n)|))
       case Part(bytes) => if bytes == [] then end == Ended else |Consumed(read, n + 1)| > 131072 && end == EndsTooLarge
       case NotBytes => end == EndsOther
       case ReadRaises => end == EndsRaising
       case ReadDefect(service) => end == EndsDefect(service)
  }

  lemma StopsThere(read: Reader, n: nat, end: ReadEnd)
    requires EndsAs(read, n, end)
    ensures !GoesOnAt(read, n)
  {}

  /** A stream ends in one way only. */
  lemma EndsOnce(read: Reader, n: nat, end: ReadEnd, other: nat, otherEnd: ReadEnd)
    requires EndsAs(read, n, end) && EndsAs(read, other, otherEnd)
    ensures n == other && end == otherEnd
  {
    StopsThere(read, n, end);
    StopsThere(read, other, otherEnd);
  }

  lemma {:induction false} ConsumedGrows(read: Reader, k: nat, n: nat)
    requires k <= n
    ensures |Consumed(read, k)| <= |Consumed(read, n)|
    decreases n - k
  {
    if k < n {
      ConsumedGrows(read, k, n - 1);
    }
  }

  lemma WholeEnds(read: Reader, body: Bytes) returns (n: nat)
    requires WholeStream(read, body)
    ensures EndsAs(read, n, Ended) && body == Consumed(read, n)
  {
    n :| (forall k: nat | k < n :: DeliversAt(read, k)) &&
         read(n, Asked(|Consumed(read, n)|)) == Part([]) && body == Consumed(read, n) && |body| <= 131072;
    forall k: nat | k < n ensures GoesOnAt(read, k) {
      ConsumedGrows(read, k + 1, n);
    }
  }

  /** It ends properly exactly when it delivers a body within the limit, and that body is everything delivered. */
  lemma EndedExactly(read: Reader, n: nat, end: ReadEnd)
    requires EndsAs(read, n, end)
    ensures end == Ended <==> EndsWithinLimit(read)
    ensures end == Ended ==> WholeStream(read, Consumed(read, n))
    ensures |Consumed(read, n)| <= 131072
  {
    if n > 0 {
      assert GoesOnAt(read, n - 1);
    }
    if end == Ended {
      forall k: nat | k < n ensures DeliversAt(read, k) {
        assert GoesOnAt(read, k);
      }
      assert WholeStream(read, Consumed(read, n));
    }
    if body :| WholeStream(read, body) {
      var m := WholeEnds(read, body);
      EndsOnce(read, n, end, m, Ended);
    }
  }

  // ---- what fails, in which order

  type Failures = seq<Failure>

  /** A defect is listed once. */
  function WithDefect(f: Failures): Failures {
    if DefectPropagated in f then f else f + [DefectPropagated]
  }

  function AfterClose(f: Failures, closing: CloseResult, failure: Failure, propagating: bool): Failures {
    match closing
    case Closes => f
    case CloseRaises => f + [failure]
    case CloseDefect(_) => (if propagating then f else WithDefect(f)) + [failure]
  }

  /** A field of the metadata is absent or out of its range. */
  predicate MetadataIsInvalid(metadata: Metadata) {
    || !metadata.requestId
    || metadata.httpStatus.None? || metadata.httpStatus.value < 100 || metadata.httpStatus.value > 599
    || metadata.retries.None? || metadata.retries.value < 0 || metadata.retries.value > 999
  }

  /** The response is not of status 200 on both levels, has no version, an unknown error or a log nobody asked for. */
  predicate ResponseIsBad(settings: Settings, metadata: Metadata, r: Response) {
    || !r.errorKnown || r.status != Some(200) || metadata.httpStatus != Some(200) || r.version.None?
    || (!settings.tail && r.log != NoLog)
  }

  predicate IsInvalid(settings: Settings, metadata: Metadata, response: Option<Response>) {
    MetadataIsInvalid(metadata) || (response.Some? && ResponseIsBad(settings, metadata, response.value))
  }

  predicate VersionDiffers(settings: Settings, r: Response) {
    r.version.Some? && !settings.latest && r.version.value != settings.qualifier
  }

  function AfterMetadata(settings: Settings, f: Failures, metadata: Metadata, response: Option<Response>): Failures {
    var counted := if metadata.retries != Some(0) then f + [RetryInvalid] else f;
    var versioned := if response.Some? && VersionDiffers(settings, response.value) then counted + [VersionMismatch]
      else counted;
    if IsInvalid(settings, metadata, response) then versioned + [ResponseInvalid] else versioned
  }

  function AfterLog(f: Failures, log: LogResult): Failures {
    match log case NoLog => f + [LogMissing] case LogInvalidForm => f + [LogInvalid] case LogDecoded => f
  }

  function AfterRead(f: Failures, end: ReadEnd): Failures {
    match end
    case Ended => f
    case EndsOther => f + [BodyInvalid]
    case EndsRaising => f + [OutcomeUnknown]
    case EndsDefect(_) => WithDefect(f)
    case EndsTooLarge => f + [BodyTooLarge]
  }

  function AfterBody(f: Failures, payload: Payload, end: ReadEnd): Failures {
    match payload
    case Unreadable => f + [ResponseInvalid]
    case CloseOnly(closing) => AfterClose(f + [ResponseInvalid], closing, CloseFailed, false)
    case Readable(_, closing) => AfterClose(AfterRead(f, end), closing, CloseFailed, end.EndsDefect?)
  }

  /** The defect that leaves the reading of the body, and whether it is of the service's class. */
  function BodyRaises(payload: Payload, end: ReadEnd): Option<bool> {
    match payload
    case Unreadable => None
    case CloseOnly(closing) => if closing.CloseDefect? then Some(closing.service) else None
    case Readable(_, closing) =>
      if end.EndsDefect? then Some(end.service)
      else if closing.CloseDefect? then Some(closing.service) else None
  }

  /** The end of the stream of a response, if it has one. */
  ghost predicate EndsFor(payload: Payload, end: ReadEnd) {
    payload.Readable? ==> exists n: nat :: EndsAs(payload.read, n, end)
  }

  function AfterResponse(settings: Settings, f: Failures, r: Response, end: ReadEnd): Failures {
    var checked := AfterMetadata(settings, f, r.metadata, Some(r));
    var read := AfterBody(if settings.tail then AfterLog(checked, r.log) else checked, r.payload, end);
    if BodyRaises(r.payload, end) == Some(true) then read + [ServiceError] else read
  }

  function AfterOutcome(settings: Settings, f: Failures, outcome: Outcome, end: ReadEnd): Failures {
    match outcome
    case NotADict => f + [ResponseInvalid]
    case Dict(response) => AfterResponse(settings, f, response, end)
    case RaisesAdapter(failure) => f + [failure]
    case RaisesService(metadata) =>
      if metadata.Some? then AfterMetadata(settings, f + [ServiceError], metadata.value, None) else f + [ServiceError]
    case RaisesTransport => f + [OutcomeUnknown]
    case RaisesDefect => f
  }

  /** A defect of any class but the service's is raised again. */
  function OutcomePropagates(outcome: Outcome, end: ReadEnd): bool {
    outcome.RaisesDefect? || (outcome.Dict? && BodyRaises(outcome.response.payload, end) == Some(false))
  }

  ghost predicate EndsWith(outcome: Outcome, end: ReadEnd) {
    outcome.Dict? ==> EndsFor(outcome.response.payload, end)
  }

  /** All failures of one use, up to the test of the hooks. */
  function UseFailures(settings: Settings, outcome: Outcome, end: ReadEnd, closing: CloseResult): Failures {
    var f := AfterOutcome(settings, [], outcome, end);
    var propagates := OutcomePropagates(outcome, end);
    AfterClose(if propagates then WithDefect(f) else f, closing, ClientCloseFailed, propagates)
  }

  function UsePropagates(outcome: Outcome, end: ReadEnd, closing: CloseResult): bool {
    OutcomePropagates(outcome, end) || closing.CloseDefect?
  }

  // ---- what a clean return depends on

  /** The one sequence of callbacks the hooks accept. */
  const PERMITTED := [ParametersHook(true), SendHook(true)]

  predicate GoodMetadata(settings: Settings, r: Response) {
    && r.metadata == Metadata(true, Some(200), Some(0))
    && r.errorKnown && r.status == Some(200) && r.version.Some?
    && (settings.latest || r.version == Some(settings.qualifier))
    && (settings.tail || r.log == NoLog)
  }

  ghost predicate GoodOutcome(settings: Settings, outcome: Outcome) {
    && outcome.Dict?
    && GoodMetadata(settings, outcome.response)
    && (settings.tail ==> outcome.response.log == LogDecoded)
    && outcome.response.payload.Readable?
    && outcome.response.payload.closing == Closes
    && EndsWithinLimit(outcome.response.payload.read)
  }

  /** The metadata of a response adds no failure exactly when it is good. */
  lemma CleanMetadata(settings: Settings, f: Failures, r: Response)
    ensures AfterMetadata(settings, f, r.metadata, Some(r)) == f <==> GoodMetadata(settings, r)
    ensures f <= AfterMetadata(settings, f, r.metadata, Some(r))
  {}

  lemma CleanBody(f: Failures, payload: Payload, end: ReadEnd)
    requires EndsFor(payload, end)
    ensures f <= AfterBody(f, payload, end)
    ensures BodyRaises(payload, end).Some? ==> AfterBody(f, payload, end) != []
    ensures AfterBody(f, payload, end) == f && BodyRaises(payload, end).None? <==>
      payload.Readable? && payload.closing == Closes && EndsWithinLimit(payload.read)
  {
    if payload.Readable? {
      var n: nat :| EndsAs(payload.read, n, end);
      EndedExactly(payload.read, n, end);
    }
  }

  lemma CleanResponse(settings: Settings, r: Response, end: ReadEnd)
    requires EndsFor(r.payload, end)
    ensures AfterResponse(settings, [], r, end) == [] && BodyRaises(r.payload, end) != Some(false) <==>
      GoodOutcome(settings, Dict(r))
  {
    var checked := AfterMetadata(settings, [], r.metadata, Some(r));
    CleanMetadata(settings, [], r);
    CleanBody(if settings.tail then AfterLog(checked, r.log) else checked, r.payload, end);
  }

  /** Nothing fails and nothing propagates exactly for a good outcome. */
  lemma CleanOutcome(settings: Settings, outcome: Outcome, end: ReadEnd)
    requires EndsWith(outcome, end)
    ensures AfterOutcome(settings, [], outcome, end) == [] && !OutcomePropagates(outcome, end) <==>
      GoodOutcome(settings, outcome)
  {
    if outcome.Dict? {
      CleanResponse(settings, outcome.response, end);
    }
  }

  lemma DefectIsListed(settings: Settings, outcome: Outcome, end: ReadEnd, closing: CloseResult)
    ensures UsePropagates(outcome, end, closing) ==> UseFailures(settings, outcome, end, closing) != []
  {}

  lemma GoodEnds(settings: Settings, outcome: Outcome, end: ReadEnd)
    requires EndsWith(outcome, end)
    ensures GoodOutcome(settings, outcome) ==> end.Ended?
  {
    if GoodOutcome(settings, outcome) {
      var n: nat :| EndsAs(outcome.response.payload.read, n, end);
      EndedExactly(outcome.response.payload.read, n, end);
    }
  }

  /** A use has no failure and does not propagate exactly for a good outcome on a client that closes. */
  lemma CleanUse(settings: Settings, outcome: Outcome, end: ReadEnd, closing: CloseResult)
    requires EndsWith(outcome, end)
    ensures UseFailures(settings, outcome, end, closing) == [] <==> GoodOutcome(settings, outcome) && closing == Closes
    ensures UsePropagates(outcome, end, closing) ==> UseFailures(settings, outcome, end, closing) != []
  {
    CleanOutcome(settings, outcome, end);
  }

  // ---- the transport

  class ParentTransport {
    const settings: Settings
    var used: bool
    var failed: bool
    var code: Code
    var failures: seq<Failure>
    var dispatchEntries: nat
    var parameterChecks: nat
    var approved: nat
    var blocked: nat
    var body: Bytes
    var bodyEof: bool
    var bodyClosed: bool
    var clientClosed: bool

    /** The first failure is latched, no second send is ever approved, a blocked send leaves the
        transport failed, and nothing was dispatched, approved or read before the one use. */
    ghost predicate Valid()
      reads this
    {
      && (failures == [] ==> !code.Failed?)
      && (failures != [] ==> code == Failed(failures[0]))
      && (blocked > 0 ==> failed)
      && approved <= 1
      && dispatchEntries == (if used then 1 else 0)
      && (!used ==> approved == 0 && failures == [] && body == [] && !bodyEof && !bodyClosed && !clientClosed)
    }

    constructor (settings: Settings)
      ensures Valid() && this.settings == settings && !used && !failed && failures == [] && code == NotReturned
      ensures dispatchEntries == parameterChecks == approved == blocked == 0
      ensures !bodyEof && !bodyClosed && !clientClosed && body == []
    {
      this.settings := settings;
      used, failed, code, failures := false, false, NotReturned, [];
      dispatchEntries, parameterChecks, approved, blocked := 0, 0, 0, 0;
      body, bodyEof, bodyClosed, clientClosed := [], false, false, false;
    }

    /** `Attempt.fail` */
    method Fail(failure: Failure)
      requires Valid() && used
      modifies this`failures, this`code
      ensures Valid() && failures == old(failures) + [failure]
      ensures code == if old(failures) == [] then Failed(failure) else old(code)
    {
      failures := failures + [failure];
      if code == NotReturned || code == Returned {
        code := Failed(failure);
      }
    }

    /** `parameters_hook`: only the first matching check of the one dispatch passes. */
    method OnParameters(matches: bool) returns (raises: bool)
      requires Valid()
      modifies this`parameterChecks, this`failed
      ensures Valid() && parameterChecks == old(parameterChecks) + 1
      ensures raises <==> old(failed) || dispatchEntries != 1 || old(parameterChecks) != 0 || !matches
      ensures failed <==> old(failed) || raises
    {
      parameterChecks := parameterChecks + 1;
      raises := failed || dispatchEntries != 1 || parameterChecks != 1 || !matches;
      if raises {
        failed := true;
      }
    }

    /** `send_hook`: one approved send after one parameter check, everything else is blocked. */
    method OnSend(matches: bool) returns (raises: bool)
      requires Valid()
      modifies this`approved, this`blocked, this`failed
      ensures Valid()
      ensures raises <==> old(failed) || dispatchEntries != 1 || parameterChecks != 1 || old(approved) != 0 || !matches
      ensures failed <==> old(failed) || raises
      ensures approved == old(approved) + (if raises then 0 else 1)
        && blocked == old(blocked) + (if raises then 1 else 0)
    {
      raises := failed || dispatchEntries != 1 || parameterChecks != 1 || approved != 0 || !matches;
      if raises {
        blocked := blocked + 1;
        failed := true;
      } else {
        approved := approved + 1;
      }
    }

    /** The callbacks of the client, whatever it does with their errors. */
    method RunHooks(script: seq<Hook>)
      requires Valid()
      modifies this`parameterChecks, this`approved, this`blocked, this`failed
      ensures Valid() && (old(failed) ==> failed)
      ensures script == [] ==> unchanged(this)
      ensures script != [] && !used ==> failed
      ensures used && !old(failed) && old(parameterChecks) == old(approved) == 0 ==>
        (parameterChecks == 1 && approved == 1 && !failed <==> script == PERMITTED)
    {
      ghost var untouched := used && !failed && parameterChecks == approved == 0;
      for i := 0 to |script|
        invariant Valid() && (old(failed) ==> failed)
        invariant i == 0 ==> unchanged(this)
        invariant i > 0 && !used ==> failed
        invariant untouched && !failed ==> script[..i] <= PERMITTED
        invariant untouched && !failed ==> parameterChecks + approved == i && approved <= parameterChecks <= 1
        invariant untouched && failed ==> !(script[..i] <= PERMITTED)
      {
        match script[i] {
          case ParametersHook(matches) => { var _ := OnParameters(matches); }
          case SendHook(matches) => { var _ := OnSend(matches); }
        }
      }
    }

    method Defect()
      requires Valid() && used
      modifies this`failures, this`code
      ensures Valid() && failures != [] && old(failures) <= failures
      ensures failures == WithDefect(old(failures))
    {
      if DefectPropagated !in failures {
        Fail(DefectPropagated);
      }
    }

    /** `_close`: the flag is set only by a close that succeeds. */
    method CloseResource(closing: CloseResult, failure: Failure, propagating: bool) returns (closed: bool, raises: bool)
      requires Valid() && used
      modifies this`failures, this`code
      ensures Valid() && old(failures) <= failures
      ensures closed <==> closing == Closes
      ensures closed ==> failures == old(failures)
      ensures !closed ==> |failures| > |old(failures)|
      ensures raises <==> closing.CloseDefect? && !propagating
      ensures failures == AfterClose(old(failures), closing, failure, propagating)
    {
      match closing {
        case Closes => return true, false;
        case CloseRaises =>
          Fail(failure);
          return false, false;
        case CloseDefect(_) =>
          if !propagating {
            Defect();
          }
          Fail(failure);
          return false, !propagating;
      }
    }

    /** `_metadata` */
    method CheckMetadata(metadata: Metadata, response: Option<Response>)
      requires Valid() && used
      modifies this`failures, this`code
      ensures Valid() && failures == AfterMetadata(settings, old(failures), metadata, response)
    {
      var http :=
        if metadata.httpStatus.Some? && 100 <= metadata.httpStatus.value <= 599 then metadata.httpStatus else None;
      var retries := if metadata.retries.Some? && 0 <= metadata.retries.value <= 999 then metadata.retries else None;
      var invalid := !metadata.requestId || http.None? || retries.None?;
      if retries != Some(0) {
        Fail(RetryInvalid);
      }
      assert retries == Some(0) <==> metadata.retries == Some(0);
      if response.Some? {
        var r := response.value;
        if !r.errorKnown || r.status != Some(200) || http != Some(200) || r.version.None?
          || (!settings.tail && r.log != NoLog) {
          invalid := true;
        }
        if r.version.Some? && !settings.latest && r.version.value != settings.qualifier {
          Fail(VersionMismatch);
        }
      }
      if invalid {
        Fail(ResponseInvalid);
      }
    }

    /** `_logs` */
    method CheckLog(log: LogResult)
      requires Valid() && used
      modifies this`failures, this`code
      ensures Valid() && (failures == old(failures) <==> log == LogDecoded)
      ensures failures == AfterLog(old(failures), log)
    {
      if log == NoLog {
        Fail(LogMissing);
      } else if log == LogInvalidForm {
        Fail(LogInvalid);
      }
    }

    /** The loop of `_read`: at most the limit is kept, and reading stops at the first surprise. */
    method ReadParts(read: Reader) returns (parts: Bytes, defect: Option<bool>, ghost n: nat, ghost end: ReadEnd)
      requires Valid() && used && !bodyEof
      modifies this`failures, this`code, this`bodyEof
      ensures Valid() && EndsAs(read, n, end) && bodyEof == end.Ended?
      ensures failures == if end.EndsDefect? then old(failures) else AfterRead(old(failures), end)
      ensures defect == if end.EndsDefect? then Some(end.service) else None
      ensures parts == if end.EndsTooLarge? then Consumed(read, n + 1)[..131072] else Consumed(read, n)
    {
      parts, defect, n, end := [], None, 0, Ended;
      var k: nat := 0;
      while true
        invariant Valid() && failures == old(failures) && !bodyEof
        invariant |parts| <= LIMIT && parts == Consumed(read, k)
        invariant forall j: nat | j < k :: GoesOnAt(read, j)
        invariant defect == None
        decreases LIMIT - |parts|
      {
        match read(k, Asked(|parts|)) {
          case NotBytes =>
            Fail(BodyInvalid);
            n, end := k, EndsOther;
            return;
          case ReadRaises =>
            Fail(OutcomeUnknown);
            n, end := k, EndsRaising;
            return;
          case ReadDefect(service) =>
            return parts, Some(service), k, EndsDefect(service);
          case Part(bytes) =>
            if bytes == [] {
              bodyEof := true;
              n := k;
              return;
            }
            if |bytes| > LIMIT - |parts| {
              assert Consumed(read, k + 1) == parts + bytes;
              assert (parts + bytes)[..LIMIT] == parts + bytes[..LIMIT - |parts|];
              parts := parts + bytes[..LIMIT - |parts|];
              Fail(BodyTooLarge);
              n, end := k, EndsTooLarge;
              return;
            }
            assert GoesOnAt(read, k);
            parts := parts + bytes;
            k := k + 1;
        }
      }
    }

    /** `_read`; `raised` tells whether an error leaves it, and of which class. */
    method ReadBody(payload: Payload) returns (raised: Option<bool>, ghost end: ReadEnd)
      requires Valid() && used && !bodyEof && !bodyClosed
      modifies this`failures, this`code, this`bodyEof, this`bodyClosed, this`body
      ensures Valid()
      ensures EndsFor(payload, end) && raised == BodyRaises(payload, end)
      ensures failures == AfterBody(old(failures), payload, end)
      ensures bodyEof == (payload.Readable? && end.Ended?)
      ensures bodyClosed == (!payload.Unreadable? && payload.closing == Closes)
      ensures payload.Readable? && end.Ended? ==> WholeStream(payload.read, body)
    {
      end := Ended;
      if !payload.Readable? {
        Fail(ResponseInvalid);
        if payload.CloseOnly? {
          var closed, raises := CloseResource(payload.closing, CloseFailed, false);
          bodyClosed := closed;
          return if raises then Some(payload.closing.service) else None, end;
        }
        return None, end;
      }
      var parts, defect;
      ghost var n;
      parts, defect, n, end := ReadParts(payload.read);
      EndedExactly(payload.read, n, end);
      if defect.Some? {
        Defect();
      }
      body := parts;
      var closed, raises := CloseResource(payload.closing, CloseFailed, defect.Some?);
      bodyClosed := closed;
      raised := if defect.Some? then defect else if raises then Some(payload.closing.service) else None;
    }

    /** The handling of what the client did; `propagates` tells whether a defect leaves it. */
    method Conclude(outcome: Outcome) returns (propagates: bool, ghost end: ReadEnd)
      requires Valid() && used && !bodyEof && !bodyClosed
      modifies this`failures, this`code, this`bodyEof, this`bodyClosed, this`body
      ensures Valid()
      ensures EndsWith(outcome, end) && propagates == OutcomePropagates(outcome, end)
      ensures failures == AfterOutcome(settings, old(failures), outcome, end)
      ensures GoodOutcome(settings, outcome) && end.Ended? ==>
        bodyEof && bodyClosed && WholeStream(outcome.response.payload.read, body)
    {
      propagates, end := false, Ended;
      match outcome {
        case NotADict => Fail(ResponseInvalid);
        case Dict(response) =>
          CheckMetadata(response.metadata, Some(response));
          if settings.tail {
            CheckLog(response.log);
          }
          var raised;
          raised, end := ReadBody(response.payload);
          if raised == Some(true) {
            Fail(ServiceError);
          }
          propagates := raised == Some(false);
        case RaisesAdapter(failure) => Fail(failure);
        case RaisesService(metadata) =>
          Fail(ServiceError);
          if metadata.Some? {
            CheckMetadata(metadata.value, None);
          }
        case RaisesTransport => Fail(OutcomeUnknown);
        case RaisesDefect => propagates := true;
      }
    }

    /** The last tests of `invoke_once`, after the client is closed. */
    method Judge()
      requires Valid() && used
      modifies this`failures, this`code
      ensures Valid() && Conclusive()
      ensures code == Returned <==> old(failures) == [] && parameterChecks == 1 && approved == 1 && !failed
      ensures failures ==
        if parameterChecks == 1 && approved == 1 && !failed then old(failures) else old(failures) + [HooksInvalid]
    {
      if parameterChecks != 1 || approved != 1 || failed {
        Fail(HooksInvalid);
      }
      if failures == [] {
        code := Returned;
      }
    }

    /** `invoke_once` up to the close of the client. */
    method Attempt(script: seq<Hook>, outcome: Outcome) returns (propagates: bool, ghost end: ReadEnd)
      requires Valid() && used && failures == [] && !bodyEof && !bodyClosed
      modifies this`parameterChecks, this`approved, this`blocked, this`failed
      modifies this`failures, this`code, this`bodyEof, this`bodyClosed, this`body
      ensures Valid() && (old(failed) ==> failed)
      ensures !old(failed) && old(parameterChecks) == old(approved) == 0 ==>
        (parameterChecks == 1 && approved == 1 && !failed <==> script == PERMITTED)
      ensures GoodOutcome(settings, outcome) && end.Ended? ==>
        bodyEof && bodyClosed && WholeStream(outcome.response.payload.read, body)
      ensures EndsWith(outcome, end) && propagates == OutcomePropagates(outcome, end)
      ensures var f := AfterOutcome(settings, [], outcome, end); failures == if propagates then WithDefect(f) else f
    {
      RunHooks(script);
      propagates, end := Conclude(outcome);
      if propagates {
        Defect();
      }
    }

    /** `invoke_once` */
    method InvokeOnce(script: seq<Hook>, outcome: Outcome, closing: CloseResult)
      returns (accepted: bool, propagates: bool, ghost end: ReadEnd)
      requires Valid()
      modifies this
      ensures Valid()
      ensures accepted == !old(used)
      ensures !accepted ==> !propagates
      ensures accepted ==> EndsWith(outcome, end) && propagates == UsePropagates(outcome, end, closing)
      ensures accepted ==> failures == AllFailures(UseFailures(settings, outcome, end, closing), propagates)
      ensures accepted && failures != [] ==> code == Failed(failures[0])
      ensures !accepted ==> unchanged(this)
      ensures used
      ensures accepted && !propagates ==> Conclusive() && (code == Returned ==> CleanReturn(outcome))
      ensures accepted && !old(failed) && old(parameterChecks) == 0 ==>
        (!propagates && code == Returned <==>
          script == PERMITTED && GoodOutcome(settings, outcome) && closing == Closes)
      ensures accepted && old(failed) && !propagates ==> code != Returned
    {
      end := Ended;
      if used {
        return false, false, end;
      }
      used, dispatchEntries := true, 1;
      propagates, end := Use(script, outcome, closing);
      CleanUse(settings, outcome, end, closing);
      return true, propagates, end;
    }

    /** The failures so far, and that of the hooks unless a defect propagates first. */
    ghost function AllFailures(f: Failures, propagates: bool): Failures
      reads this
    {
      if propagates || (parameterChecks == 1 && approved == 1 && !failed) then f else f + [HooksInvalid]
    }

    /** The one use, from the dispatch to the last test. */
    method Use(script: seq<Hook>, outcome: Outcome, closing: CloseResult)
      returns (propagates: bool, ghost end: ReadEnd)
      requires Valid() && used && failures == [] && !bodyEof && !bodyClosed && !clientClosed
      modifies this`parameterChecks, this`approved, this`blocked, this`failed
      modifies this`failures, this`code, this`bodyEof, this`bodyClosed, this`body, this`clientClosed
      ensures Valid() && (old(failed) ==> failed)
      ensures EndsWith(outcome, end) && propagates == UsePropagates(outcome, end, closing)
      ensures failures == AllFailures(UseFailures(settings, outcome, end, closing), propagates)
      ensures failures != [] ==> code == Failed(failures[0])
      ensures !propagates ==> (code == Returned <==> failures == [])
      ensures clientClosed == (closing == Closes)
      ensures GoodOutcome(settings, outcome) && end.Ended? ==>
        bodyEof && bodyClosed && WholeStream(outcome.response.payload.read, body)
      ensures GoodOutcome(settings, outcome) ==> end.Ended?
      ensures !old(failed) && old(parameterChecks) == old(approved) == 0 ==>
        (parameterChecks == 1 && approved == 1 && !failed <==> script == PERMITTED)
    {
      propagates, end := Attempt(script, outcome);
      GoodEnds(settings, outcome, end);
      var closed, raises := CloseResource(closing, ClientCloseFailed, propagates);
      clientClosed := closed;
      if propagates || raises {
        DefectIsListed(settings, outcome, end, closing);
        return true, end;
      }
      Judge();
    }

    /** The code is RETURNED exactly when nothing failed, and otherwise the first failure. */
    ghost predicate Conclusive()
      reads this
    {
      && (code == Returned <==> failures == [])
      && (failures != [] ==> code == Failed(failures[0]))
    }

    /** One dispatch, one parameter check, one approved send, and the whole body. */
    ghost predicate CleanReturn(outcome: Outcome)
      reads this
    {
      && dispatchEntries == 1 && parameterChecks == 1 && approved == 1 && blocked == 0 && !failed
      && bodyEof && bodyClosed && clientClosed
      && outcome.Dict? && outcome.response.payload.Readable? && WholeStream(outcome.response.payload.read, body)
    }

    /** The conjunction of `_publish_adapter`. */
    predicate Clean()
      reads this
    {
      && code == Returned && failures == [] && !failed
      && dispatchEntries == 1 && parameterChecks == 1 && approved == 1 && blocked == 0
      && bodyEof && bodyClosed && clientClosed
    }
  }

  /** The client checked the pinned parameters once and then sent the pinned request once, and did nothing else. */
  predicate OnePermittedSend(script: seq<Hook>) {
    |script| == 2 && script[0] == ParametersHook(true) && script[1] == SendHook(true)
  }

  /** A response of the pinned version with status 200 on both levels, after no retry, with a log exactly when one was
      asked for, whose body ends within the limit and closes, on a client that closes. */
  ghost predicate GoodAnswer(settings: Settings, outcome: Outcome, closing: CloseResult) {
    && outcome.Dict? && closing.Closes?
    && var r := outcome.response;
       && r.metadata.requestId && r.metadata.httpStatus == Some(200) && r.metadata.retries == Some(0)
       && r.status == Some(200) && r.errorKnown
       && r.version.Some? && (!settings.latest ==> r.version.value == settings.qualifier)
       && (if settings.tail then r.log.LogDecoded? else r.log.NoLog?)
       && r.payload.Readable? && r.payload.closing.Closes? && EndsWithinLimit(r.payload.read)
  }

  lemma GoodAnswerExactly(settings: Settings, outcome: Outcome, closing: CloseResult)
    ensures GoodAnswer(settings, outcome, closing) <==> GoodOutcome(settings, outcome) && closing == Closes
  {}

  /** After a normal return the clean conjunction says no more than the code. */
  method InvokeAndPublish(settings: Settings, early: seq<Hook>, script: seq<Hook>, outcome: Outcome,
      closing: CloseResult)
    returns (clean: bool, returned: bool, propagates: bool, body: Bytes)
    ensures !propagates ==> clean == returned
    ensures !propagates && clean <==>
      early == [] && script == PERMITTED && GoodOutcome(settings, outcome) && closing == Closes
    ensures !propagates && clean ==>
      outcome.Dict? && outcome.response.payload.Readable? && WholeStream(outcome.response.payload.read, body)
        && |body| <= 131072
    ensures !propagates && clean <==> early == [] && OnePermittedSend(script) && GoodAnswer(settings, outcome, closing)
  {
    GoodAnswerExactly(settings, outcome, closing);

    var transport := new ParentTransport(settings);
    transport.RunHooks(early);
    var accepted;
    ghost var end;
    accepted, propagates, end := transport.InvokeOnce(script, outcome, closing);
    clean, returned, body := transport.Clean(), transport.code == Returned, transport.body;
    // A second use is refused and changes nothing.
    var again, _, _ := transport.InvokeOnce(script, outcome, closing);
    assert !again && transport.body == body;
  }
}
