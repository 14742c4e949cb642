/** The operator accepts what the handler emits. */
module ProducerConsumer {
  import opened Results
  import opened Policy
  import opened PolicyBooks
  import opened ExtraRequests
  import opened Accounting
  import opened Handler
  import opened Consumer

  /** The policy state behind an emitted result. */
  ghost predicate Emissible(c: Config, s: State) {
    Books(c, s.account) && Journalled(s)
  }

  /** The state of a run whose chain completed. */
  ghost predicate Completed(s: State) {
    && s.account.marks == {} && !s.account.violated && s.account.extras == []
    && AllStages(s.account.attempts)
    && (forall stage | stage in s.account.attempts && Model(stage) :: SettledWithin(s.account.attempts[stage]))
  }

  lemma CloseKeeps(c: Config, s: State, end: BodyEnd, completeOk: bool, stoppedOk: bool)
    requires Sound(c, s)
    ensures Emissible(c, CloseRun(s, end, completeOk, stoppedOk).0)
    ensures CloseRun(s, end, completeOk, stoppedOk).1.None? ==> Completed(CloseRun(s, end, completeOk, stoppedOk).0)
  {}

  /** What is known of the policy when the handler takes over again. */
  ghost predicate Handed(c: Config, ending: Ending, s: State) {
    && Emissible(c, s)
    && (ending.Ran? && StopOf(ending).None? ==> Completed(s))
    && (!ending.Ran? ==> s.account.attempts == map[] && s.account.marks == {})
  }

  lemma RanIsHanded(c: Config, ending: Ending)
    requires ValidConfig(c) && RanReachably(c, ending) && ending.Ran?
    ensures Handed(c, ending, FinalState(ending))
  {
    ReachableIsSound(c, ending.body);
    CloseKeeps(c, ending.body, ending.end, ending.completeOk, ending.stoppedOk);
  }

  lemma NotRanIsHanded(c: Config, ending: Ending, s: State)
    requires ValidConfig(c) && !ending.Ran? && Fresh(s)
    ensures Handed(c, ending, s)
  {
    FreshIsSound(c, s);
  }

  lemma FinalIsHanded(c: Config, ending: Ending)
    requires ValidConfig(c) && RanReachably(c, ending)
    ensures Handed(c, ending, FinalState(ending))
  {
    if ending.Ran? {
      RanIsHanded(c, ending);
    } else {
      NotRanIsHanded(c, ending, ending.left);
    }
  }

  // ---- the parts of the check

  /** The parts of the report that the per-entry checks look at. */
  ghost predicate Describes(r: Report, a: Account) {
    (forall mark :: mark in r.marks <==> mark in a.marks) && r.coverage == CoverageOf(a)
  }

  lemma ReportDescribes(c: Config, a: Account, compact: bool)
    ensures Describes(ReportOf(c, a, compact), a)
  {
    MarkListFaithful(a.marks);
  }

  lemma ReportAccepted(c: Config, s: State, v: HandlerResult, compact: bool)
    requires v.report == ReportOf(c, s.account, compact)
    requires compact ==> v.status == Uncertain && v.code == Some(ResultTooLarge) && v.events == []
    ensures ReportConsistent(v)
  {
    MarkListFaithful(s.account.marks);
  }

  lemma AttemptsAccepted(c: Config, s: State, r: Report)
    requires Emissible(c, s) && Describes(r, s.account)
    ensures forall stage | stage in s.account.attempts :: AttemptConsistent(r, stage, s.account.attempts[stage])
  {
    forall stage | stage in s.account.attempts ensures AttemptConsistent(r, stage, s.account.attempts[stage]) {
      var a := s.account.attempts[stage];
      assert AttemptOk(c, s.account.marks, s.account.violated, stage, a);
      if a.attribution.Some? {
        match a.attribution.value { case AuthorizedRequest => case UnattributedResponse => }
      }
    }
  }

  lemma ExtrasAccepted(c: Config, s: State, r: Report)
    requires Emissible(c, s) && Describes(r, s.account)
    ensures forall e | e in s.account.extras :: ExtraConsistent(r, e)
  {
    forall e | e in s.account.extras ensures ExtraConsistent(r, e) {
      assert ExtraOk(s.account.marks, s.account.violated, e);
    }
  }

  /** A verdict that agrees with the state it is emitted with. */
  ghost predicate VerdictAgrees(s: State, v: Verdict) {
    && (v.code.None? <==> v.status == StructuralSuccess) && (v.answer.Answered? <==> v.status == StructuralSuccess)
    && (v.status == StructuralSuccess ==> Completed(s))
    && var uncertain :=
         s.account.marks != {} || Unsettled(s.account.attempts) || (v.code.Some? && UncertainCode(v.code.value));
       (v.status != Uncertain ==> !uncertain)
       && (v.code.Some? ==> match v.code.value
           case ClientCloseFailed => v.status == Uncertain
           case LocalEvidenceUnavailable => v.status == Uncertain
           case LocalExecutionUnavailable => v.status == if s.account.attempts != map[] then Uncertain else Stopped
           case ClientFactoryInvalid => true
           case ClientInitializationFailed => true
           case _ => v.status == if uncertain then Uncertain else Stopped)
  }

  lemma CompletedIsCertain(c: Config, s: State)
    requires Emissible(c, s) && Completed(s)
    ensures !Unsettled(s.account.attempts) && s.account.attempts != map[]
    ensures CoverageOf(s.account) == WithinRecordedReservations && WithinCaps(c, s.account)
  {
    forall stage | stage in s.account.attempts
      ensures s.account.attempts[stage].settled || s.account.attempts[stage].reservation == 0
    {
      assert AttemptOk(c, s.account.marks, s.account.violated, stage, s.account.attempts[stage]);
    }
    assert Router in s.account.attempts;
  }

  lemma AccountingAccepted(c: Config, s: State, v: HandlerResult, compact: bool)
    requires Emissible(c, s) && v.attempts == s.account.attempts && v.report == ReportOf(c, s.account, compact)
    requires ReportConsistent(v) && (forall e | e in v.events :: e in s.journal)
    requires v.status != Uncertain ==> !Uncertainty(v)
    requires CodeConsistent(v)
    ensures AccountingConsistent(v)
  {
    ReportDescribes(c, s.account, compact);
    AttemptsAccepted(c, s, v.report);
  }

  lemma UncertaintyOf(c: Config, s: State, v: HandlerResult, compact: bool)
    requires v.attempts == s.account.attempts && v.report == ReportOf(c, s.account, compact)
    ensures Uncertainty(v) <==>
      s.account.marks != {} || Unsettled(s.account.attempts) || (v.code.Some? && UncertainCode(v.code.value))
  {
    MarkListFaithful(s.account.marks);
  }

  lemma FullAccepted(c: Config, s: State, v: Verdict, events: seq<Event>)
    requires Emissible(c, s) && VerdictAgrees(s, v)
    requires forall e | e in events :: e in s.journal
    ensures Accepted(HandlerResult(v.status, v.code, s.account.attempts, ReportOf(c, s.account, false), events,
      v.answer))
  {
    var out := HandlerResult(v.status, v.code, s.account.attempts, ReportOf(c, s.account, false), events, v.answer);
    UncertaintyOf(c, s, out, false);
    ReportAccepted(c, s, out, false);
    AccountingAccepted(c, s, out, false);
    ReportDescribes(c, s.account, false);
    ExtrasAccepted(c, s, out.report);
    if v.status == StructuralSuccess {
      CompletedIsCertain(c, s);
    }
  }

  lemma CompactAccepted(c: Config, s: State)
    requires Emissible(c, s)
    ensures Accepted(HandlerResult(Uncertain, Some(ResultTooLarge), s.account.attempts, ReportOf(c, s.account, true),
      [], NoAnswer))
  {
    var out := HandlerResult(Uncertain, Some(ResultTooLarge), s.account.attempts, ReportOf(c, s.account, true), [],
      NoAnswer);
    ReportAccepted(c, s, out, true);
    AccountingAccepted(c, s, out, true);
  }

  /** An activation stopped with the code that the handler itself uses for an unreadable journal, in a certain state,
      and emitted as it is. Nothing stops with that code. */
  predicate Masquerades(s: State, stop: Option<Stop>, closing: Closing) {
    && stop == Some(LocalEvidenceStop)
    && s.account.marks == {} && !Unsettled(s.account.attempts)
    && !closing.closeFails && !closing.evidenceFails && !closing.oversize
  }

  lemma StopAgrees(s: State, stop: Stop)
    ensures VerdictAgrees(s, StopVerdict(s, stop)) <==>
      !(stop == LocalEvidenceStop && s.account.marks == {} && !Unsettled(s.account.attempts))
  {}

  lemma CertainAgrees(s: State, ending: Ending)
    requires s.account.marks == {} && !Unsettled(s.account.attempts)
    requires ending.Ran? ==> Completed(s)
    requires !ending.Ran? ==> s.account.attempts == map[]
    ensures !ending.NotActivated? ==> VerdictAgrees(s, VerdictFrom(s, None, ending))
  {}

  lemma VerdictFromAgrees(c: Config, s: State, stop: Option<Stop>, ending: Ending)
    requires Emissible(c, s) && (ending.Ran? && stop.None? ==> Completed(s))
    requires !ending.Ran? ==> s.account.attempts == map[] && s.account.marks == {}
    requires ending.NotActivated? ==> stop.Some?
    ensures VerdictAgrees(s, VerdictFrom(s, stop, ending)) <==>
      !(stop == Some(LocalEvidenceStop) && s.account.marks == {} && !Unsettled(s.account.attempts))
  {
    if stop.Some? {
      StopAgrees(s, stop.value);
    } else {
      if ending.Ran? {
        CompletedIsCertain(c, s);
      }
      CertainAgrees(s, ending);
    }
  }

  lemma EmittedFromAccepted(c: Config, s: State, v: Verdict, closing: Closing)
    requires Emissible(c, s)
    requires VerdictAgrees(s, v) || closing.closeFails || closing.evidenceFails || closing.oversize
    ensures Accepted(EmittedFrom(c, s, v, closing))
  {
    if closing.oversize {
      CompactAccepted(c, s);
    } else if closing.evidenceFails {
      FullAccepted(c, s, Verdict(Uncertain, Some(LocalEvidenceUnavailable), NoAnswer), []);
    } else if closing.closeFails {
      FullAccepted(c, s, Verdict(Uncertain, Some(ClientCloseFailed), NoAnswer), s.journal);
    } else {
      FullAccepted(c, s, v, s.journal);
    }
  }

  lemma MasqueradeRefused(c: Config, s: State, ending: Ending, closing: Closing)
    requires s.account.marks == {} && !Unsettled(s.account.attempts)
    requires !closing.closeFails && !closing.evidenceFails && !closing.oversize
    ensures !Accepted(EmittedFrom(c, s, VerdictFrom(s, Some(LocalEvidenceStop), ending), closing))
  {}

  lemma HandedIsAccepted(c: Config, ending: Ending, closing: Closing, s: State, stop: Option<Stop>, out: HandlerResult)
    requires Handed(c, ending, s) && stop == StopOf(ending)
    requires out == EmittedFrom(c, s, VerdictFrom(s, stop, ending), closing)
    ensures Accepted(out) <==> !Masquerades(s, stop, closing)
  {
    VerdictFromAgrees(c, s, stop, ending);
    if Masquerades(s, stop, closing) {
      MasqueradeRefused(c, s, ending, closing);
    } else {
      EmittedFromAccepted(c, s, VerdictFrom(s, stop, ending), closing);
    }
  }

  lemma HandedIsInspected(c: Config, ending: Ending, closing: Closing, s: State, stop: Option<Stop>, out: HandlerResult)
    requires Handed(c, ending, s) && stop == StopOf(ending)
    requires out == EmittedFrom(c, s, VerdictFrom(s, stop, ending), closing)
    ensures Inspected(out) == if Masquerades(s, stop, closing) then None else Some(MappingOf(out.report))
  {
    HandedIsAccepted(c, ending, closing, s, stop, out);
  }

  /** Over every run of the policy and every way the handler can finish, in the full and in the compact form, the
      inspection returns the contract mapping of what is emitted. The exception is a remark on the published
      vocabulary: were the reserved code ever raised, exactly the results that carry it out of a certain state,
      unchanged by the closing part of the handler, would be refused. */
  lemma VocabularyIsInspected(c: Config, ending: Ending, closing: Closing, s: State, stop: Option<Stop>,
                              out: HandlerResult)
    requires ValidConfig(c) && RanReachably(c, ending)
    requires s == FinalState(ending) && stop == StopOf(ending)
    requires out == EmittedFrom(c, s, VerdictFrom(s, stop, ending), closing)
    ensures Inspected(out) == if Masquerades(s, stop, closing) then None else Some(MappingOf(out.report))
  {
    FinalIsHanded(c, ending);
    HandedIsInspected(c, ending, closing, s, stop, out);
  }

  lemma RaisedIsInspected(c: Config, ending: Ending, closing: Closing, s: State, stop: Option<Stop>, out: HandlerResult)
    requires ValidConfig(c) && Possible(c, ending)
    requires s == FinalState(ending) && stop == StopOf(ending)
    requires out == EmittedFrom(c, s, VerdictFrom(s, stop, ending), closing)
    ensures Inspected(out) == Some(MappingOf(out.report))
  {
    NothingMasquerades(ending, stop);
    VocabularyIsInspected(c, ending, closing, s, stop, out);
  }

  lemma NothingMasquerades(ending: Ending, stop: Option<Stop>)
    requires ending.Ran? && ending.end.BodyStops? ==> IsRaised(ending.end.stop)
    requires ending.NotActivated? ==> IsRaised(ending.stop)
    requires stop == StopOf(ending)
    ensures stop != Some(LocalEvidenceStop)
  {}

  /** The operator accepts everything the handler can emit. */
  lemma EmittedIsAccepted(c: Config, ending: Ending, closing: Closing)
    requires ValidConfig(c) && Possible(c, ending)
    ensures Inspected(Emitted(c, ending, closing)) == Some(MappingOf(Emitted(c, ending, closing).report))
  {
    var s, stop, out := FinalState(ending), StopOf(ending), Emitted(c, ending, closing);
    EmittedForm(c, ending, closing, s, stop, out);
    RaisedIsInspected(c, ending, closing, s, stop, out);
  }

  lemma UnusedTold(c: Config, s: State)
    requires Unused(s)
    ensures Told(c, s.account, s.evidence)
  {}

  lemma FinalTold(c: Config, ending: Ending)
    requires ValidConfig(c) && RanReachably(c, ending)
    ensures Told(c, FinalState(ending).account, FinalState(ending).evidence)
  {
    if ending.Ran? {
      ReachableTold(c, ending.body);
    } else {
      UnusedTold(c, ending.left);
    }
  }

  lemma DeliveredIsEvidence(c: Config, a: Account, evidence: set<string>)
    requires Told(c, a, evidence)
    ensures SomeDelivered(a.extras) <==> evidence != {}
    ensures SomeCharged(a.extras) ==> evidence != {} || exists e :: e in a.extras && e.delivery == No && e.charge.Some?
  {
    if e :| e in a.extras && e.delivery != No {
      assert Has(a.extras, e.evidence.value);
    }
    if hash :| hash in evidence {
      assert Has(a.extras, hash);
    }
    if i: nat :| i < |a.extras| && a.extras[i].charge.GetOr(0) > 0 {
      assert a.extras[i] in a.extras && (a.extras[i].delivery != No ==> Has(a.extras, a.extras[i].evidence.value));
    }
  }

  /** How the outcome of a run is to be mapped, told from the run and not from its report. */
  ghost predicate MappedFrom(c: Config, s: State, oversize: bool, mapping: Mapping) {
    && (mapping == Incomplete <==> oversize)
    && (mapping == ViolatedUnreservedExposure <==> !oversize && s.evidence != {})
    && (!oversize && s.evidence == {} ==> mapping == Recorded(
          if SomeOverspent(c, s.account.attempts) then Violated
          else if s.account.marks != {} then Unestablished else WithinRecordedReservations))
  }

  lemma ReportMapsRun(c: Config, s: State, compact: bool)
    requires Emissible(c, s) && Told(c, s.account, s.evidence)
    ensures MappedFrom(c, s, compact, MappingOf(ReportOf(c, s.account, compact)))
  {
    DeliveredIsEvidence(c, s.account, s.evidence);
    forall e | e in s.account.extras ensures !(e.delivery == No && e.charge.Some?) {
      assert ExtraOk(s.account.marks, s.account.violated, e);
    }
  }

  lemma EmittedMapsRun(c: Config, s: State, v: Verdict, closing: Closing, out: HandlerResult)
    requires Emissible(c, s) && Told(c, s.account, s.evidence) && out == EmittedFrom(c, s, v, closing)
    ensures MappedFrom(c, s, closing.oversize, MappingOf(out.report))
  {
    ReportMapsRun(c, s, closing.oversize);
  }

  lemma FinalMapsRun(c: Config, ending: Ending, closing: Closing, s: State, stop: Option<Stop>, out: HandlerResult)
    requires ValidConfig(c) && RanReachably(c, ending)
    requires s == FinalState(ending) && stop == StopOf(ending)
    requires out == EmittedFrom(c, s, VerdictFrom(s, stop, ending), closing)
    ensures MappedFrom(c, s, closing.oversize, MappingOf(out.report))
  {
    FinalTold(c, ending);
    FinalIsHanded(c, ending);
    EmittedMapsRun(c, s, VerdictFrom(s, stop, ending), closing, out);
  }

  /** The mapping that the inspection returns tells what happened in the run: that the result was cut short, that some
      request without authority was observed, or else how far the recorded spend can be vouched for. */
  lemma MappingTellsRun(c: Config, ending: Ending, closing: Closing, s: State, out: HandlerResult, mapping: Mapping)
    requires ValidConfig(c) && RanReachably(c, ending)
    requires s == FinalState(ending) && out == Emitted(c, ending, closing) && Inspected(out) == Some(mapping)
    ensures MappedFrom(c, s, closing.oversize, mapping)
  {
    InspectedMapping(out, mapping);
    EmittedMapping(c, ending, closing, s, out, mapping);
  }

  lemma InspectedMapping(out: HandlerResult, mapping: Mapping)
    requires Inspected(out) == Some(mapping)
    ensures mapping == MappingOf(out.report)
  {}

  lemma EmittedMapping(c: Config, ending: Ending, closing: Closing, s: State, out: HandlerResult, mapping: Mapping)
    requires ValidConfig(c) && RanReachably(c, ending)
    requires s == FinalState(ending) && out == Emitted(c, ending, closing) && mapping == MappingOf(out.report)
    ensures MappedFrom(c, s, closing.oversize, mapping)
  {
    EmittedForm(c, ending, closing, s, StopOf(ending), out);
    FinalMapsRun(c, ending, closing, s, StopOf(ending), out);
  }

  /** What an accepted success means on its own, whoever produced it: every stage was attempted, nothing is held any
      more and no recorded charge exceeds its reservation. */
  lemma AcceptedSuccessIsSettled(v: HandlerResult)
    requires Accepted(v) && v.status == StructuralSuccess
    ensures forall stage: Stage :: stage in v.attempts
    ensures v.report.holdsHaiku == v.report.holdsTitan == 0
    ensures forall stage | stage in v.attempts && v.attempts[stage].charge.Some? ::
      v.attempts[stage].charge.value <= v.attempts[stage].reservation
  {
    forall stage: Stage ensures stage in v.attempts {
      assert AllStages(v.attempts);
      match stage { case Router => case Index => case Metadata => case Embedding => case Generation => }
    }
    assert !Unsettled(v.attempts);
    forall stage | stage in v.attempts ensures v.attempts[stage].hold == 0 {
      assert AttemptConsistent(v.report, stage, v.attempts[stage]);
    }
    forall stage | stage in v.attempts && v.attempts[stage].charge.Some?
      ensures v.attempts[stage].charge.value <= v.attempts[stage].reservation
    {
      assert AttemptConsistent(v.report, stage, v.attempts[stage]);
    }
  }

  /** What the operator can rely on about one attempt of an accepted result. */
  ghost predicate AttemptShows(v: HandlerResult, stage: Stage, a: Attempt) {
    && (a.charge.Some? && a.charge.value > a.reservation ==> v.report.coverage == Violated)
    && (a.charge.Some? && !a.settled ==> OfStage(stage) in v.report.marks && v.status == Uncertain)
    && (a.attribution == Some(UnattributedResponse) ==> OfStage(stage) in v.report.marks && v.status == Uncertain)
    && (a.settled ==> stage != Index && stage != Metadata && a.hold == 0)
    && (a.settled ==> a.charge.Some? && a.usage.Some? && a.attribution == Some(AuthorizedRequest))
    && (!a.settled ==> a.hold == a.reservation && (a.reservation > 0 ==> v.status == Uncertain))
  }

  /** What the operator can rely on about one extra request. */
  ghost predicate ExtraShows(v: HandlerResult, e: Extra) {
    && (e.charge.Some? && e.charge.value > 0 ==> v.report.coverage == Violated && e.delivery != No)
    && (e.delivery != No ==> Inspected(v) == Some(ViolatedUnreservedExposure))
    && (e.delivery == Unknown || (e.delivery == Yes && e.charge.None?) ==>
          OfStage(e.stage) in v.report.marks && v.status == Uncertain)
  }

  lemma AcceptedAttempt(v: HandlerResult, stage: Stage)
    requires Accepted(v) && stage in v.attempts
    ensures AttemptShows(v, stage, v.attempts[stage])
  {
    assert AttemptConsistent(v.report, stage, v.attempts[stage]);
    assert v.status != Uncertain ==> !Uncertainty(v);
  }

  lemma AcceptedExtra(v: HandlerResult, e: Extra)
    requires Accepted(v) && v.report.extras.Some? && e in v.report.extras.value
    ensures ExtraShows(v, e)
  {
    assert ExtraConsistent(v.report, e);
    assert v.status != Uncertain ==> !Uncertainty(v);
  }

  lemma AcceptedTotals(v: HandlerResult)
    requires Accepted(v)
    ensures v.report.holdsHaiku == HoldAt(v.attempts, Router) + HoldAt(v.attempts, Generation)
    ensures v.report.holdsTitan == HoldAt(v.attempts, Embedding)
    ensures v.status != Uncertain ==> v.report.holdsHaiku == v.report.holdsTitan == 0
  {
    if v.status != Uncertain {
      forall stage | stage in v.attempts ensures v.attempts[stage].hold == 0 {
        AcceptedAttempt(v, stage);
      }
    }
  }

  /** No accepted result hides spend or doubt, whoever produced it: an overrun, an unsettled charge, a held reservation,
      a delivered request without authority and a lost track all show in coverage, marks, status and mapping. */
  lemma AcceptedHidesNothing(v: HandlerResult)
    requires Accepted(v)
    ensures forall stage | stage in v.attempts :: AttemptShows(v, stage, v.attempts[stage])
    ensures v.report.extras.Some? ==> forall e | e in v.report.extras.value :: ExtraShows(v, e)
    ensures v.report.extras.None? ==> v.status == Uncertain && Inspected(v) == Some(Incomplete)
    ensures forall e | e in v.events :: e.UsageEvent? && e.overrun ==> v.report.coverage == Violated
    ensures v.report.marks != [] ==> v.status == Uncertain && !v.report.boundEstablished && !v.report.ceilingEstablished
    ensures v.report.coverage == WithinRecordedReservations ==> v.report.marks == []
    ensures v.report.coverage == Violated ==> !v.report.ceilingEstablished
    ensures v.code.Some? && UncertainCode(v.code.value) ==> v.status == Uncertain
    ensures v.report.holdsHaiku == HoldAt(v.attempts, Router) + HoldAt(v.attempts, Generation)
    ensures v.report.holdsTitan == HoldAt(v.attempts, Embedding)
  {
    forall stage | stage in v.attempts ensures AttemptShows(v, stage, v.attempts[stage]) {
      AcceptedAttempt(v, stage);
    }
    if v.report.extras.Some? {
      forall e | e in v.report.extras.value ensures ExtraShows(v, e) {
        AcceptedExtra(v, e);
      }
    }
    AcceptedTotals(v);
  }
}
