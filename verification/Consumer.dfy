/** The operator's structural check of a handler result. */
module Consumer {
  import opened Results
  import opened Policy
  import opened PolicyBooks
  import opened Accounting
  import opened Handler

  // ---- what the check demands, from the result alone

  ghost predicate AttemptConsistent(r: Report, stage: Stage, a: Attempt) {
    && a.hold == (if a.settled then 0 else a.reservation)
    && (a.settled ==> Model(stage) && a.charge.Some? && a.usage.Some?)
    && (a.settled ==> (stage == Embedding ==> a.usage.value.output == 0) && a.attribution == Some(AuthorizedRequest))
    && ((a.charge.Some? && !a.settled) || a.attribution == Some(UnattributedResponse) ==> OfStage(stage) in r.marks)
    && (a.charge.Some? && a.charge.value > a.reservation ==> r.coverage == Violated)
  }

  ghost predicate ExtraConsistent(r: Report, e: Extra) {
    && (e.delivery == No ==> e.usage.None? && e.charge.None?)
    && (e.charge.Some? && e.charge.value > 0 ==> r.coverage == Violated)
    && (e.delivery != No ==> Model(e.stage))
    && (e.delivery == Unknown || (e.delivery != No && e.charge.None?) ==> OfStage(e.stage) in r.marks)
  }

  predicate Uncertainty(v: HandlerResult) {
    v.report.marks != [] || Unsettled(v.attempts) || (v.code.Some? && UncertainCode(v.code.value))
  }

  predicate CodeConsistent(v: HandlerResult) {
    v.code.Some? ==>
      match v.code.value
      case ClientCloseFailed => v.status == Uncertain
      case LocalEvidenceUnavailable => v.status == Uncertain
      case LocalExecutionUnavailable => v.status == if v.attempts != map[] then Uncertain else Stopped
      case ResultTooLarge => v.status == if v.report.extras.None? || Uncertainty(v) then Uncertain else Stopped
      case ClientFactoryInvalid => true
      case ClientInitializationFailed => true
      case _ => v.status == if Uncertainty(v) then Uncertain else Stopped
  }

  ghost predicate ReportConsistent(v: HandlerResult) {
    var r := v.report;
    && DistinctMarks(r.marks)
    && r.boundEstablished == (r.marks == [])
    && (r.coverage == Violated || r.coverage == if r.marks != [] then Unestablished else WithinRecordedReservations)
    && (r.ceilingEstablished ==> r.boundEstablished && r.coverage != Violated)
    && (r.extraCount == 0 ==> r.digest == ExtrasDigest([]))
    && (r.extras.None? ==> v.status == Uncertain && v.code == Some(ResultTooLarge) && v.events == [])
  }

  /** `consumer_accounting` */
  ghost predicate AccountingConsistent(v: HandlerResult) {
    && ReportConsistent(v)
    && (forall stage | stage in v.attempts :: AttemptConsistent(v.report, stage, v.attempts[stage]))
    && v.report.holdsHaiku == Holds(v.attempts, Haiku) && v.report.holdsTitan == Holds(v.attempts, Titan)
    && (forall e | e in v.events :: e.UsageEvent? && e.overrun ==> v.report.coverage == Violated)
    && (v.status != Uncertain ==> !Uncertainty(v))
    && CodeConsistent(v)
  }

  /** How the recorded exposure maps onto the contract. */
  datatype Mapping = Incomplete | Recorded(coverage: Coverage) | ViolatedUnreservedExposure

  predicate SomeDelivered(extras: seq<Extra>) {
    exists e | e in extras :: e.delivery != No
  }

  function MappingOf(r: Report): Mapping {
    if r.extras.None? then Incomplete
    else if SomeDelivered(r.extras.value) then ViolatedUnreservedExposure
    else Recorded(r.coverage)
  }

  predicate AllStages(attempts: map<Stage, Attempt>) {
    Router in attempts && Index in attempts && Metadata in attempts && Embedding in attempts && Generation in attempts
  }

  /** The accounting part of `inspect_handler`. */
  ghost predicate Accepted(v: HandlerResult) {
    && (v.code.None? <==> v.status == StructuralSuccess)
    && AccountingConsistent(v)
    && (v.report.extras.Some? ==>
          && |v.report.extras.value| == v.report.extraCount && v.report.digest == ExtrasDigest(v.report.extras.value)
          && (forall e | e in v.report.extras.value :: ExtraConsistent(v.report, e)))
    && (v.answer.Answered? <==> v.status == StructuralSuccess)
    && (v.status == StructuralSuccess ==>
          && AllStages(v.attempts) && v.report.boundEstablished && v.report.ceilingEstablished
          && MappingOf(v.report) == Recorded(WithinRecordedReservations) && v.report.extraCount == 0)
  }

  /** What the inspection returns: the contract mapping of an accepted result. */
  ghost function Inspected(v: HandlerResult): Option<Mapping> {
    if Accepted(v) then Some(MappingOf(v.report)) else None
  }

  // ---- the check as the program runs it

  datatype ConsumerError = HandlerResultInvalid | HandlerResultContradictory

  function HoldOf(attempts: map<Stage, Attempt>, stage: Stage, p: Provider): nat {
    if Model(stage) && ProviderOf(stage) == p then HoldAt(attempts, stage) else 0
  }

  ghost function HoldsBefore(attempts: map<Stage, Attempt>, i: nat, p: Provider): nat {
    if i == 0 then 0 else HoldsBefore(attempts, i - 1, p) + HoldOf(attempts, StageAt(i - 1), p)
  }

  lemma HoldsOfAll(attempts: map<Stage, Attempt>, p: Provider)
    ensures HoldsBefore(attempts, STAGES, p) == Holds(attempts, p)
  {
    assert HoldsBefore(attempts, 5, p) == HoldsBefore(attempts, 3, p)
      + HoldOf(attempts, StageAt(3), p) + HoldOf(attempts, StageAt(4), p);
    assert HoldsBefore(attempts, 3, p) == HoldsBefore(attempts, 1, p)
      + HoldOf(attempts, StageAt(1), p) + HoldOf(attempts, StageAt(2), p);
  }

  lemma StageAtOrdinal(stage: Stage)
    ensures OrdinalOf(stage) < STAGES && StageAt(OrdinalOf(stage)) == stage
  {}

  /** The loop over the attempts: per-attempt checks, the held flag and the hold totals. */
  method CheckAttempts(v: HandlerResult) returns (ok: bool, held: bool, haiku: nat, titan: nat)
    ensures ok <==> forall stage | stage in v.attempts :: AttemptConsistent(v.report, stage, v.attempts[stage])
    ensures ok ==> (held <==> Unsettled(v.attempts))
    ensures ok ==> haiku == Holds(v.attempts, Haiku) && titan == Holds(v.attempts, Titan)
  {
    ok, held, haiku, titan := true, false, 0, 0;
    for i := 0 to STAGES
      invariant forall stage | stage in v.attempts && OrdinalOf(stage) < i ::
        AttemptConsistent(v.report, stage, v.attempts[stage])
      invariant held <==> exists stage | stage in v.attempts && OrdinalOf(stage) < i ::
        !v.attempts[stage].settled && v.attempts[stage].reservation != 0
      invariant haiku == HoldsBefore(v.attempts, i, Haiku) && titan == HoldsBefore(v.attempts, i, Titan)
      invariant ok
    {
      var stage := StageAt(i);
      OrdinalAt(i);
      if stage in v.attempts {
        var a := v.attempts[stage];
        ok := CheckAttempt(v.report, stage, a);
        if !ok {
          return;
        }
        held := held || (!a.settled && a.reservation != 0);
        if Model(stage) {
          if stage == Embedding {
            titan := titan + a.hold;
          } else {
            haiku := haiku + a.hold;
          }
        }
      }
    }
    forall stage ensures OrdinalOf(stage) < STAGES { StageAtOrdinal(stage); }
    HoldsOfAll(v.attempts, Haiku);
    HoldsOfAll(v.attempts, Titan);
  }

  lemma OrdinalAt(i: nat)
    requires i < STAGES
    ensures OrdinalOf(StageAt(i)) == i
    ensures forall stage :: OrdinalOf(stage) < i + 1 <==> OrdinalOf(stage) < i || stage == StageAt(i)
  {}

  /** One attempt. */
  method CheckAttempt(r: Report, stage: Stage, a: Attempt) returns (ok: bool)
    ensures ok <==> AttemptConsistent(r, stage, a)
  {
    if a.hold != (if a.settled then 0 else a.reservation) {
      return false;
    }
    if a.settled
      && !(Model(stage) && a.charge.Some? && a.usage.Some? && (stage != Embedding || a.usage.value.output == 0)
           && a.attribution == Some(AuthorizedRequest)) {
      return false;
    }
    if ((a.charge.Some? && !a.settled) || a.attribution == Some(UnattributedResponse)) && OfStage(stage) !in r.marks {
      return false;
    }
    return !(a.charge.Some? && a.charge.value > a.reservation) || r.coverage == Violated;
  }

  /** `consumer_accounting` */
  method ConsumerAccounting(v: HandlerResult) returns (ok: bool)
    ensures ok <==> AccountingConsistent(v)
  {
    var r := v.report;
    ok := DistinctList(r.marks);
    if !ok || r.boundEstablished != (r.marks == [])
      || !(r.coverage == Violated || r.coverage == if r.marks != [] then Unestablished else WithinRecordedReservations)
      || (r.ceilingEstablished && !(r.boundEstablished && r.coverage != Violated))
      || (r.extraCount == 0 && r.digest != ExtrasDigest([]))
      || (r.extras.None? && !(v.status == Uncertain && v.code == Some(ResultTooLarge) && v.events == []))
    {
      return false;
    }
    assert ReportConsistent(v);
    var held, haiku, titan;
    ok, held, haiku, titan := CheckAttempts(v);
    if !ok || r.holdsHaiku != haiku || r.holdsTitan != titan {
      return false;
    }
    for i := 0 to |v.events|
      invariant forall j | 0 <= j < i :: v.events[j].UsageEvent? && v.events[j].overrun ==> r.coverage == Violated
    {
      if v.events[i].UsageEvent? && v.events[i].overrun && r.coverage != Violated {
        assert v.events[i] in v.events;
        return false;
      }
    }
    var uncertainty := r.marks != [] || held || (v.code.Some? && UncertainCode(v.code.value));
    ok := (v.status == Uncertain || !uncertainty) && CodeConsistent(v);
  }

  method DistinctList(marks: seq<Mark>) returns (ok: bool)
    ensures ok <==> DistinctMarks(marks)
  {
    for i := 0 to |marks|
      invariant DistinctMarks(marks[..i])
    {
      if marks[i] in marks[..i] {
        ghost var j :| 0 <= j < i && marks[j] == marks[i];
        return false;
      }
    }
    assert marks[..|marks|] == marks;
    return true;
  }

  /** The accounting part of `inspect_handler`: the verdict and the contract mapping. */
  method InspectAccounting(v: HandlerResult) returns (r: Result<Mapping, ConsumerError>)
    ensures r.Ok? <==> Accepted(v)
    ensures r.Ok? ==> r.value == MappingOf(v.report)
    ensures Inspected(v) == if r.Ok? then Some(r.value) else None
  {
    if v.code.None? != (v.status == StructuralSuccess) || v.answer.Answered? != (v.status == StructuralSuccess) {
      return Err(HandlerResultInvalid);
    }
    var ok := ConsumerAccounting(v);
    if !ok {
      return Err(HandlerResultContradictory);
    }
    var mapping := Incomplete;
    if v.report.extras.Some? {
      var extras := v.report.extras.value;
      if |extras| != v.report.extraCount || v.report.digest != ExtrasDigest(extras) {
        return Err(HandlerResultInvalid);
      }
      mapping := Recorded(v.report.coverage);
      for i := 0 to |extras|
        invariant forall j | 0 <= j < i :: ExtraConsistent(v.report, extras[j])
        invariant mapping ==
          if SomeDelivered(extras[..i]) then ViolatedUnreservedExposure else Recorded(v.report.coverage)
      {
        var e := extras[i];
        assert extras[..i + 1] == extras[..i] + [e];
        ok := CheckExtra(v.report, e);
        if !ok {
          assert e in extras;
          return Err(HandlerResultContradictory);
        }
        if e.delivery != No {
          mapping := ViolatedUnreservedExposure;
        }
      }
      assert extras[..|extras|] == extras;
    }
    if v.status == StructuralSuccess
      && !(AllStages(v.attempts) && v.report.boundEstablished && v.report.ceilingEstablished
           && mapping == Recorded(WithinRecordedReservations) && v.report.extraCount == 0)
    {
      return Err(HandlerResultContradictory);
    }
    return Ok(mapping);
  }

  method CheckExtra(r: Report, e: Extra) returns (ok: bool)
    ensures ok <==> ExtraConsistent(r, e)
  {
    if e.delivery == No && !(e.usage.None? && e.charge.None?) {
      return false;
    }
    if e.charge.Some? && e.charge.value > 0 && r.coverage != Violated {
      return false;
    }
    return e.delivery == No
      || (Model(e.stage) && (!(e.delivery == Unknown || e.charge.None?) || OfStage(e.stage) in r.marks));
  }
}
