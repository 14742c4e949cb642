/** The bounded capture run: planned reads, exclusive publication, and the status they end with. */
module Capture {
  import opened Basics
  import opened Results
  import JsonTree

  // ---- the plan

  datatype Role = ProductionBaseline | Candidate | Alias | RollbackTarget

  datatype Observation = Observation(role: Role, aliasRead: bool)

  datatype Plan = Plan(maxCalls: int, observations: seq<Observation>)

  const MAX_CALLS := 5

  predicate ValidPlan(plan: Plan) {
    && 1 <= |plan.observations| <= 4
    && (forall i: nat, j: nat | i < j < |plan.observations| :: plan.observations[i].role != plan.observations[j].role)
    && plan.maxCalls == 1 + |plan.observations| <= MAX_CALLS
  }

  /** No role is read twice. */
  ghost predicate NoRoleTwice(plan: Plan) {
    forall i: nat, j: nat | i < j < |plan.observations| ::
      plan.observations[i].role != plan.observations[j].role
  }

  /** The account check comes first, then one read per planned role. */
  datatype Label = AccountVerification | ForRole(role: Role)

  function LabelAt(plan: Plan, k: nat): Label
    requires k <= |plan.observations|
  {
    if k == 0 then AccountVerification else ForRole(plan.observations[k - 1].role)
  }

  datatype Service = Sts | LambdaService

  function ServiceAt(k: nat): Service {
    if k == 0 then Sts else LambdaService
  }

  // ---- what the surroundings do

  datatype Clock = ClockRaises | NotUtc | At(instant: int)

  datatype Monotonic = Steady | MonotonicRaises | Unusable

  /** A reply that is not an error: its value, when it is a dictionary, and what later checks find in it. */
  datatype Reply =
    | Raises
    | NotADictionary
    | Answers(value: JsonTree.Value, serializes: bool, retries: Option<int>, expected: bool)

  datatype Writing = Writes | DoesNotSerialize | AlreadyExists | Fails

  /** Everything the surroundings may do around one call. */
  datatype Turn = Turn(clientAvailable: bool, started: Clock, before: Monotonic, reply: Reply, after: Monotonic,
                       received: Clock, record: Writing, observation: Writing)

  type Turns = nat -> Turn

  // ---- publication

  datatype FileName =
    | PlanFile
    | RecordFile(sequence: nat, subject: Label)
    | ObservationFile(sequence: nat, subject: Label)
    | IndexFile

  datatype PublicationCode = Collision | PublicationFailed | SerializationFailed

  function WriteStop(writing: Writing): Option<PublicationCode> {
    match writing
    case Writes => None
    case DoesNotSerialize => Some(SerializationFailed)
    case AlreadyExists => Some(Collision)
    case Fails => Some(PublicationFailed)
  }

  class Publisher {
    var files: set<FileName>
    var failures: seq<(PublicationCode, FileName)>

    constructor ()
      ensures files == {} && failures == []
    {
      files, failures := {}, [];
    }

    /** `write_json`: a file is listed exactly when it was written in full, and never twice. */
    method Write(name: FileName, writing: Writing) returns (failure: Option<PublicationCode>)
      modifies this
      ensures failure.None? <==> name !in old(files) && writing == Writes
      ensures name !in old(files) ==> failure == WriteStop(writing)
      ensures files == if failure.None? then old(files) + {name} else old(files)
      ensures failures == if failure.None? then old(failures) else old(failures) + [(failure.value, name)]
    {
      if writing == DoesNotSerialize {
        failure := Some(SerializationFailed);
      } else if name in files || writing == AlreadyExists {
        failure := Some(Collision);
      } else if writing == Fails {
        failure := Some(PublicationFailed);
      } else {
        failure := None;
      }
      if failure.Some? {
        failures := failures + [(failure.value, name)];
      } else {
        files := files + {name};
      }
    }
  }

  // ---- one read

  datatype Stop =
    | ClientUnavailable | CallLimitReached | ClockReadFailed | ClockInvalid | ReadFailed | NotRepresentable
    | ResponseSerializationFailed | RetryMetadataMissing | UnexpectedRetry | UnexpectedContent

  datatype Ending = Returned | Stopped(stop: Stop) | Interrupted(code: PublicationCode)

  const DIGITS := 64

  /** The reply is acceptable and arrived at a valid time. */
  predicate GoodReply(turn: Turn, started: int, digits: nat) {
    && turn.reply.Answers? && turn.reply.value.Dict? && JsonTree.Representable(turn.reply.value, digits)
    && turn.reply.serializes && turn.reply.retries == Some(0) && turn.reply.expected
    && turn.after == Steady && turn.received.At? && turn.received.instant >= started
  }

  /** A call may be made at all. */
  predicate CanStart(turn: Turn, previous: Option<int>, needsClient: bool) {
    && (needsClient ==> turn.clientAvailable)
    && turn.started.At? && turn.before == Steady
    && (previous.Some? ==> previous.value < turn.started.instant)
  }

  /** A call that is made, accepted and fully published. */
  predicate GoodTurn(turn: Turn, previous: Option<int>, needsClient: bool, hasRecord: bool, digits: nat) {
    && CanStart(turn, previous, needsClient)
    && GoodReply(turn, turn.started.instant, digits)
    && (hasRecord ==> turn.record == Writes)
    && turn.observation == Writes
  }

  // ---- how one call ends

  function MonotonicStop(m: Monotonic): Option<Stop> {
    match m case Steady => None case MonotonicRaises => Some(ClockReadFailed) case Unusable => Some(ClockInvalid)
  }

  /** Why a call is not made, if it is not. */
  function StartStop(turn: Turn, previous: Option<int>, needsClient: bool): Option<Stop> {
    if needsClient && !turn.clientAvailable then Some(ClientUnavailable)
    else if !turn.started.At? then Some(if turn.started.ClockRaises? then ClockReadFailed else ClockInvalid)
    else if previous.Some? && turn.started.instant <= previous.value then Some(ClockInvalid)
    else MonotonicStop(turn.before)
  }

  /** What is wrong with a reply, if anything is: first its content, then the clocks, then what it should say. */
  function ReplyStop(turn: Turn, started: int, digits: nat): Option<Stop> {
    if turn.reply.Raises? then Some(ReadFailed)
    else if turn.reply.NotADictionary? || !turn.reply.value.Dict? || !JsonTree.Representable(turn.reply.value, digits)
    then Some(NotRepresentable)
    else if !turn.reply.serializes then Some(ResponseSerializationFailed)
    else if turn.reply.retries.None? then Some(RetryMetadataMissing)
    else if turn.reply.retries.value != 0 then Some(UnexpectedRetry)
    else if turn.after != Steady then MonotonicStop(turn.after)
    else if turn.received.ClockRaises? then Some(ClockReadFailed)
    else if !turn.received.At? || turn.received.instant < started then Some(ClockInvalid)
    else if !turn.reply.expected then Some(UnexpectedContent)
    else None
  }

  /** A failed publication interrupts, whatever the reply was; the record comes before the observation. */
  function PublicationStop(turn: Turn, recorded: bool): Option<PublicationCode> {
    if recorded && turn.record != Writes then WriteStop(turn.record) else WriteStop(turn.observation)
  }

  function TurnEnding(turn: Turn, previous: Option<int>, needsClient: bool, hasRecord: bool, digits: nat): Ending {
    if StartStop(turn, previous, needsClient).Some? then Stopped(StartStop(turn, previous, needsClient).value)
    else
      var stop := ReplyStop(turn, turn.started.instant, digits);
      var publication := PublicationStop(turn, stop.None? && hasRecord);
      if publication.Some? then Interrupted(publication.value)
      else if stop.Some? then Stopped(stop.value)
      else Returned
  }

  lemma ReturnedExactly(turn: Turn, previous: Option<int>, needsClient: bool, hasRecord: bool, digits: nat)
    ensures TurnEnding(turn, previous, needsClient, hasRecord, digits) == Returned <==>
      GoodTurn(turn, previous, needsClient, hasRecord, digits)
  {}

  /** The checks on a reply, in their order. */
  method Judge(turn: Turn, started: int, digits: nat) returns (stop: Option<Stop>)
    ensures stop.None? <==> GoodReply(turn, started, digits)
    ensures stop == ReplyStop(turn, started, digits)
  {
    var clockStop: Option<Stop> := None;
    if turn.after != Steady {
      clockStop := Some(if turn.after.MonotonicRaises? then ClockReadFailed else ClockInvalid);
    }
    if turn.received == ClockRaises && clockStop.None? {
      clockStop := Some(ClockReadFailed);
    }
    var clockValid := turn.received.At? && turn.received.instant >= started;
    if turn.reply == Raises {
      return Some(ReadFailed);
    }
    if turn.reply == NotADictionary || !turn.reply.value.Dict? {
      return Some(NotRepresentable);
    }
    var representable := JsonTree.IsRepresentable(turn.reply.value, digits);
    if !representable {
      return Some(NotRepresentable);
    }
    if !turn.reply.serializes {
      return Some(ResponseSerializationFailed);
    }
    if turn.reply.retries.None? {
      return Some(RetryMetadataMissing);
    }
    if turn.reply.retries.value != 0 {
      return Some(UnexpectedRetry);
    }
    if clockStop.Some? {
      return clockStop;
    }
    if !clockValid {
      return Some(ClockInvalid);
    }
    return if turn.reply.expected then None else Some(UnexpectedContent);
  }

  // ---- the run

  /** Where the k-th call starts after the ones before it. */
  function PreviousStart(turns: Turns, k: nat): Option<int> {
    if k == 0 || !turns(k - 1).started.At? then None else Some(turns(k - 1).started.instant)
  }

  /** The first k calls went well. */
  ghost predicate Smooth(turns: Turns, k: nat) {
    forall i: nat | i < k :: GoodTurn(turns(i), PreviousStart(turns, i), i < 2, i > 0, DIGITS)
  }

  /** How a run of n calls ends: with the first that does not return. */
  function RunEnding(turns: Turns, n: nat): Ending {
    if n == 0 then Returned
    else if RunEnding(turns, n - 1) != Returned then RunEnding(turns, n - 1)
    else TurnEnding(turns(n - 1), PreviousStart(turns, n - 1), n - 1 < 2, n - 1 > 0, DIGITS)
  }

  /** How many calls a run makes. */
  function RunCalls(turns: Turns, n: nat): nat {
    if n == 0 then 0
    else if RunEnding(turns, n - 1) != Returned then RunCalls(turns, n - 1)
    else if StartStop(turns(n - 1), PreviousStart(turns, n - 1), n - 1 < 2).Some? then n - 1
    else n
  }

  /** How many roles a run has records of. */
  function RunRecords(turns: Turns, n: nat): (r: nat)
    ensures r <= if n == 0 then 0 else n - 1
  {
    if n == 0 then 0
    else if RunEnding(turns, n) != Returned then RunRecords(turns, n - 1)
    else n - 1
  }

  /** Nothing happens any more after a call that does not return. */
  lemma {:induction false} RunStops(turns: Turns, k: nat, n: nat)
    requires k <= n && RunEnding(turns, k) != Returned
    ensures RunEnding(turns, n) == RunEnding(turns, k) && RunCalls(turns, n) == RunCalls(turns, k)
    ensures RunRecords(turns, n) == RunRecords(turns, k)
    decreases n - k
  {
    if k < n {
      RunStops(turns, k, n - 1);
    }
  }

  function FilesAfter(plan: Plan, k: nat): set<FileName>
    requires k <= 1 + |plan.observations|
  {
    if k == 0 then {PlanFile}
    else
      FilesAfter(plan, k - 1) + {ObservationFile(k, LabelAt(plan, k - 1))}
      + (if k > 1 then {RecordFile(k, LabelAt(plan, k - 1))} else {})
  }

  function RolesUpTo(plan: Plan, k: nat): seq<Role>
    requires k <= |plan.observations|
  {
    seq(k, i requires 0 <= i < k => plan.observations[i].role)
  }

  class Session {
    const plan: Plan
    const publisher: Publisher
    var clients: set<Service>
    var attempted: nat
    var sequence: nat
    var previousStart: Option<int>
    var records: seq<Role>
    var accountVerified: bool
    /** The start of every call that was made. */
    ghost var starts: seq<int>

    /** Calls and files after `made` calls that went well. */
    ghost predicate After(made: nat)
      reads this, publisher
    {
      && made <= 1 + |plan.observations|
      && attempted == sequence == made == |starts|
      && clients == (if made > 0 then {Sts} else {}) + (if made > 1 then {LambdaService} else {})
      && records == RolesUpTo(plan, if made == 0 then 0 else made - 1)
      && publisher.files == FilesAfter(plan, made)
      && (previousStart == if made == 0 then None else Some(starts[made - 1]))
      && Increasing(starts)
    }

    constructor (plan: Plan, publisher: Publisher)
      requires publisher.files == {PlanFile}
      ensures this.plan == plan && this.publisher == publisher && After(0) && !accountVerified
    {
      this.plan, this.publisher := plan, publisher;
      clients, attempted, sequence, previousStart := {}, 0, 0, None;
      records, accountVerified, starts := [], false, [];
    }

    /** The gates before a call: nothing is attempted unless all of them pass. */
    method Begin(turn: Turn) returns (stop: Option<Stop>)
      requires After(attempted) && attempted <= |plan.observations| && ValidPlan(plan)
      modifies this`clients, this`attempted, this`sequence, this`previousStart, this`starts
      ensures stop.None? <==> CanStart(turn, old(previousStart), old(attempted) < 2)
      ensures stop == StartStop(turn, old(previousStart), old(attempted) < 2)
      ensures stop.Some? ==> attempted == old(attempted) && sequence == old(sequence) && starts == old(starts)
      ensures stop.None? ==>
        && attempted == sequence == old(attempted) + 1 && previousStart == Some(turn.started.instant)
        && starts == old(starts) + [turn.started.instant] && Increasing(starts)
        && clients == old(clients) + {ServiceAt(old(attempted))}
    {
      var service := ServiceAt(attempted);
      if service !in clients {
        if !turn.clientAvailable {
          return Some(ClientUnavailable);
        }
        clients := clients + {service};
      }
      if attempted >= plan.maxCalls {
        return Some(CallLimitReached);
      }
      if !turn.started.At? {
        return Some(if turn.started.ClockRaises? then ClockReadFailed else ClockInvalid);
      }
      if previousStart.Some? && turn.started.instant <= previousStart.value {
        return Some(ClockInvalid);
      }
      if turn.before != Steady {
        return Some(if turn.before.MonotonicRaises? then ClockReadFailed else ClockInvalid);
      }
      previousStart := Some(turn.started.instant);
      sequence, attempted := sequence + 1, attempted + 1;
      starts := starts + [turn.started.instant];
      return None;
    }

    /** The record, when the reply was accepted, and then the observation, whatever happened. */
    method Publish(turn: Turn, subject: Label, accepted: bool) returns (publication: Option<PublicationCode>)
      requires RecordFile(sequence, subject) !in publisher.files
        && ObservationFile(sequence, subject) !in publisher.files
      modifies publisher
      ensures publication.None? <==>
        (accepted && subject.ForRole? ==> turn.record == Writes) && turn.observation == Writes
      ensures publication == PublicationStop(turn, accepted && subject.ForRole?)
      ensures publication.None? ==> publisher.failures == old(publisher.failures)
      ensures publication.Some? ==> |publisher.failures| > |old(publisher.failures)|
      ensures publication.None? ==>
        publisher.files == old(publisher.files) + {ObservationFile(sequence, subject)}
                         + (if accepted && subject.ForRole? then {RecordFile(sequence, subject)} else {})
      ensures old(publisher.files) <= publisher.files
      ensures IndexFile in publisher.files <==> IndexFile in old(publisher.files)
    {
      publication := None;
      if accepted && subject.ForRole? {
        publication := publisher.Write(RecordFile(sequence, subject), turn.record);
      }
      var second := publisher.Write(ObservationFile(sequence, subject), turn.observation);
      if publication.None? {
        publication := second;
      }
    }

    /** `observe`: one separately timed read. */
    method Observe(turn: Turn, subject: Label) returns (ending: Ending)
      requires ValidPlan(plan) && After(attempted) && attempted <= |plan.observations|
        && subject == LabelAt(plan, attempted)
      modifies this, publisher
      ensures ending == TurnEnding(turn, old(previousStart), old(attempted) < 2, old(attempted) > 0, DIGITS)
      ensures ending == Returned ==>
        After(old(attempted) + 1) && starts == old(starts) + [turn.started.instant]
      ensures attempted == old(attempted) + 1 <==> StartStop(turn, old(previousStart), old(attempted) < 2).None?
      ensures ending != Returned ==> records == old(records)
      ensures old(attempted) <= attempted == |starts| <= old(attempted) + 1 && Increasing(starts)
      ensures |records| <= old(attempted)
      ensures ending.Interrupted? <==> publisher.failures != old(publisher.failures)
      ensures attempted == old(attempted) + 1 && !ending.Interrupted? ==>
        ObservationFile(attempted, subject) in publisher.files
      ensures old(publisher.files) <= publisher.files && accountVerified == old(accountVerified)
      ensures IndexFile in publisher.files <==> IndexFile in old(publisher.files)
    {
      ghost var k := attempted;
      NamesAreFresh(plan, k, subject);
      var refusal := Begin(turn);
      if refusal.Some? {
        return Stopped(refusal.value);
      }
      var stop := Judge(turn, turn.started.instant, DIGITS);
      var publication := Publish(turn, subject, stop.None?);
      if publication.Some? {
        return Interrupted(publication.value);
      }
      if stop.Some? {
        return Stopped(stop.value);
      }
      if subject.ForRole? {
        records := records + [subject.role];
      }
      return Returned;
    }

    /** `run`: the account check, then the planned reads, until one of them does not return. */
    method Perform(turns: Turns) returns (ending: Ending)
      requires ValidPlan(plan) && After(0) && !accountVerified
      modifies this, publisher
      ensures ending == Returned ==> After(1 + |plan.observations|) && accountVerified
      ensures ending == Returned ==> AreStarts(turns, starts)
      ensures ending == RunEnding(turns, 1 + |plan.observations|)
      ensures attempted == RunCalls(turns, 1 + |plan.observations|)
      ensures records == RolesUpTo(plan, RunRecords(turns, 1 + |plan.observations|))
      ensures accountVerified <==> RunEnding(turns, 1) == Returned
      ensures attempted == |starts| <= plan.maxCalls && Increasing(starts) && |records| <= |plan.observations|
      ensures ending.Interrupted? <==> publisher.failures != old(publisher.failures)
      ensures !ending.Interrupted? ==> Observed(plan, attempted, publisher.files)
      ensures IndexFile !in publisher.files
    {
      for k := 0 to 1 + |plan.observations|
        invariant After(k) && WellSoFar(turns, k) && publisher.failures == old(publisher.failures)
        invariant AreStarts(turns, starts)
        invariant accountVerified == (k > 0) && IndexFile !in publisher.files
      {
        ghost var before := publisher.files;
        PreviousIs(turns, starts, k);
        StartsGrow(turns, starts, k);
        ending := Observe(turns(k), LabelAt(plan, k));
        if ending != Returned {
          if !ending.Interrupted? {
            ObservationsStay(plan, k, attempted, before, publisher.files);
          }
          EndsThere(turns, k, 1 + |plan.observations|);
          return;
        }
        GoesOn(turns, k);
        accountVerified := true;
      }
      ObservationsStay(plan, attempted, attempted, publisher.files, publisher.files);
      ending := Returned;
    }
  }

  /** Every call that was made has its observation file. */
  predicate Observed(plan: Plan, made: nat, files: set<FileName>)
    requires made <= 1 + |plan.observations|
  {
    forall i: nat | i < made :: ObservationFile(i + 1, LabelAt(plan, i)) in files
  }

  lemma {:induction false} ObservationsAreFiles(plan: Plan, k: nat)
    requires k <= 1 + |plan.observations|
    ensures Observed(plan, k, FilesAfter(plan, k))
  {
    if k > 0 {
      ObservationsAreFiles(plan, k - 1);
    }
  }

  lemma ObservationsStay(plan: Plan, k: nat, made: nat, before: set<FileName>, files: set<FileName>)
    requires k <= made <= 1 + |plan.observations| && made <= k + 1
    requires before == FilesAfter(plan, k) && before <= files
    requires made == k + 1 ==> ObservationFile(made, LabelAt(plan, k)) in files
    ensures Observed(plan, made, files)
  {
    ObservationsAreFiles(plan, k);
  }

  /** The calls started at these times. */
  ghost predicate AreStarts(turns: Turns, starts: seq<int>) {
    forall i: nat | i < |starts| :: turns(i).started == At(starts[i])
  }

  lemma PreviousIs(turns: Turns, starts: seq<int>, k: nat)
    requires |starts| == k && AreStarts(turns, starts)
    ensures PreviousStart(turns, k) == if k == 0 then None else Some(starts[k - 1])
  {}

  lemma StartsGrow(turns: Turns, starts: seq<int>, k: nat)
    requires |starts| == k && AreStarts(turns, starts)
    ensures turns(k).started.At? ==> AreStarts(turns, starts + [turns(k).started.instant])
  {}

  /** The first k calls returned. */
  ghost predicate WellSoFar(turns: Turns, k: nat) {
    && RunEnding(turns, k) == Returned && RunCalls(turns, k) == k
    && RunRecords(turns, k) == (if k > 0 then k - 1 else 0) && (k > 0 ==> RunEnding(turns, 1) == Returned)
  }

  function EndingAt(turns: Turns, k: nat): Ending {
    TurnEnding(turns(k), PreviousStart(turns, k), k < 2, k > 0, DIGITS)
  }

  lemma GoesOn(turns: Turns, k: nat)
    requires WellSoFar(turns, k) && EndingAt(turns, k) == Returned
    ensures WellSoFar(turns, k + 1)
  {}

  lemma EndsThere(turns: Turns, k: nat, n: nat)
    requires WellSoFar(turns, k) && EndingAt(turns, k) != Returned && k < n
    ensures RunEnding(turns, n) == EndingAt(turns, k)
    ensures RunCalls(turns, n) == if StartStop(turns(k), PreviousStart(turns, k), k < 2).Some? then k else k + 1
    ensures RunRecords(turns, n) == if k > 0 then k - 1 else 0
    ensures RunEnding(turns, 1) == Returned <==> k > 0
  {
    RunStops(turns, k + 1, n);
  }

  /** A run returns exactly when every call of it is good. */
  lemma {:induction false} SmoothExactly(turns: Turns, n: nat)
    ensures RunEnding(turns, n) == Returned <==> Smooth(turns, n)
  {
    if n > 0 {
      SmoothExactly(turns, n - 1);
      ReturnedExactly(turns(n - 1), PreviousStart(turns, n - 1), n - 1 < 2, n - 1 > 0, DIGITS);
    }
  }

  /** The files of earlier calls carry smaller sequence numbers. */
  lemma {:induction false} NamesAreFresh(plan: Plan, k: nat, subject: Label)
    requires k <= 1 + |plan.observations|
    ensures forall name :: name in FilesAfter(plan, k) ==>
      (name.RecordFile? || name.ObservationFile? ==> name.sequence <= k) && name != IndexFile
  {
    if k > 0 {
      NamesAreFresh(plan, k - 1, subject);
    }
  }

  // ---- the capture

  datatype Status = Complete | Halted | Broken | BrokenUnindexed

  datatype Report = Report(
    status: Status, attempted: nat, records: seq<Role>, files: set<FileName>, accountVerified: bool)

  /** The status of a capture of n calls. */
  function StatusOf(turns: Turns, n: nat, planWriting: Writing, indexWriting: Writing): Status {
    if indexWriting != Writes then BrokenUnindexed
    else if planWriting != Writes then Broken
    else match RunEnding(turns, n)
      case Returned => Complete
      case Stopped(_) => Halted
      case Interrupted(_) => Broken
  }

  /** `capture` after the plan was read: COMPLETE, STOPPED, INTERRUPTED or INTERRUPTED_UNINDEXED. It is complete
      exactly when the plan, every call and the index went well; and then exactly the planned calls were made. */
  method Capture(plan: Plan, turns: Turns, planWriting: Writing, indexWriting: Writing)
    returns (r: Option<Report>, ghost starts: seq<int>)
    ensures r.Some? <==> 1 <= |plan.observations| <= 4 && plan.maxCalls == 1 + |plan.observations| && NoRoleTwice(plan)
    ensures r.Some? ==>
      (r.value.status == Complete <==>
        planWriting == Writes && Smooth(turns, 1 + |plan.observations|) && indexWriting == Writes)
    ensures r.Some? && r.value.status == Complete ==>
      && r.value.attempted == plan.maxCalls == |starts| && r.value.accountVerified
      && r.value.records == RolesUpTo(plan, |plan.observations|)
      && r.value.files == FilesAfter(plan, 1 + |plan.observations|) + {IndexFile}
      && AreStarts(turns, starts)
    ensures r.Some? ==> r.value.status == StatusOf(turns, 1 + |plan.observations|, planWriting, indexWriting)
    ensures r.Some? && planWriting == Writes ==>
      && r.value.attempted == RunCalls(turns, 1 + |plan.observations|)
      && r.value.records == RolesUpTo(plan, RunRecords(turns, 1 + |plan.observations|))
      && (r.value.accountVerified <==> RunEnding(turns, 1) == Returned)
    ensures r.Some? && planWriting != Writes ==>
      r.value.attempted == 0 && r.value.records == [] && !r.value.accountVerified
    ensures r.Some? ==> r.value.attempted == |starts| <= plan.maxCalls <= 5 && Increasing(starts)
    ensures r.Some? && r.value.status == Halted ==>
      r.value.attempted <= 1 + |plan.observations| && Observed(plan, r.value.attempted, r.value.files)
  {
    starts := [];
    if !ValidPlan(plan) {
      return None, [];
    }
    var publisher := new Publisher();
    var failure := publisher.Write(PlanFile, planWriting);
    if failure.Some? {
      var unindexed := publisher.Write(IndexFile, indexWriting);
      return Some(Report(if unindexed.None? then Broken else BrokenUnindexed, 0, [], publisher.files, false)), [];
    }
    var run := new Session(plan, publisher);
    var ending := run.Perform(turns);
    SmoothExactly(turns, 1 + |plan.observations|);
    starts := run.starts;
    NamesAreFresh(plan, 1 + |plan.observations|, AccountVerification);
    var status := if ending == Returned then Complete else if ending.Stopped? then Halted else Broken;
    var unindexed := publisher.Write(IndexFile, indexWriting);
    if unindexed.Some? {
      status := BrokenUnindexed;
    }
    r := Some(Report(status, run.attempted, run.records, publisher.files, run.accountVerified));
  }
}
