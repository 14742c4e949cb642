/** What the status and the code of an emitted result say of how the run ended. */
module HandlerVerdicts {
  import opened Results
  import opened Policy
  import opened PolicyBooks
  import opened Accounting
  import opened Handler

  /** The body came back with all five stages answered, and the completion was recorded. */
  ghost predicate RanThrough(ending: Ending) {
    ending.Ran? && ending.end.BodyReturns? && !ending.body.halted && ending.body.position == 5 && ending.completeOk
  }

  /** What stopped a run that did not go through; a stop that cannot be recorded counts as a lost record. */
  function StoppedBy(ending: Ending): Stop
    requires ending.Ran?
  {
    if !ending.stoppedOk then EvidencePublication
    else match ending.end
      case BodyStops(stop) => stop
      case BodyRaises => LocalOrUncertainFailure
      case BodyReturns =>
        if ending.body.halted || ending.body.position != 5 then ChainIncomplete else EvidencePublication
  }

  lemma StopExactly(ending: Ending)
    requires ending.Ran?
    ensures StopOf(ending) == if RanThrough(ending) then None else Some(StoppedBy(ending))
  {}

  lemma FinalAccount(ending: Ending)
    ensures FinalState(ending).account == StateOf(ending).account
    ensures FinalState(ending).evidence == StateOf(ending).evidence
  {}

  /** Success means just that: the run went through, the answer was in bounds, and nothing failed while closing. */
  ghost predicate Succeeds(ending: Ending, closing: Closing) {
    RanThrough(ending) && ending.after.Bounded? && !closing.closeFails && !closing.evidenceFails && !closing.oversize
  }

  lemma VerdictSucceeds(s: State, stop: Option<Stop>, ending: Ending, v: Verdict)
    requires v == VerdictFrom(s, stop, ending)
    ensures v.status == StructuralSuccess <==> stop.None? && ending.Ran? && ending.after.Bounded?
    ensures v.code.None? <==> v.status == StructuralSuccess
    ensures v.answer.Answered? <==> v.status == StructuralSuccess
  {}

  /** The policy after its activation, to the last field: a completed run gets its completion record, any other is
      halted and gets a stop record when that can be written. */
  lemma ClosedState(ending: Ending)
    requires ending.Ran?
    ensures FinalState(ending) == (
      if RanThrough(ending)
      then ending.body.(active := false, permit := None, journal := ending.body.journal + [CompleteEvent])
      else ending.body.(active := false, halted := true, permit := None,
                        journal := ending.body.journal + (if ending.stoppedOk then [StoppedEvent] else [])))
  {}

  lemma FinalJournal(ending: Ending)
    ensures RanThrough(ending) ==> FinalState(ending).journal == ending.body.journal + [CompleteEvent]
  {}

  /** What closing does to status, code and result. */
  ghost predicate ClosedAs(v: Verdict, closing: Closing, out: Verdict) {
    if !closing.closeFails && !closing.evidenceFails && !closing.oversize then out == v
    else out == Verdict(Uncertain, Some(if closing.oversize then ResultTooLarge
                                        else if closing.evidenceFails then LocalEvidenceUnavailable
                                        else ClientCloseFailed), NoAnswer)
  }

  /** The verdict of an emitted result. */
  function Final(out: HandlerResult): Verdict { Verdict(out.status, out.code, out.answer) }

  /** Every emitted result has a verdict that closing made of the one before, and carries the records of the run
      unless it had to be cut short. */
  lemma EmittedClosed(c: Config, s: State, v: Verdict, closing: Closing, out: HandlerResult)
    requires out == EmittedFrom(c, s, v, closing)
    ensures ClosedAs(v, closing, Final(out))
    ensures out.attempts == s.account.attempts && out.report == ReportOf(c, s.account, closing.oversize)
    ensures out.events == if closing.oversize || closing.evidenceFails then [] else s.journal
  {}

  lemma SuccessExactly(s: State, stop: Option<Stop>, ending: Ending, v: Verdict, closing: Closing, out: Verdict)
    requires v == VerdictFrom(s, stop, ending) && stop == StopOf(ending) && ClosedAs(v, closing, out)
    ensures out.status == StructuralSuccess <==> Succeeds(ending, closing)
    ensures out.code.None? <==> Succeeds(ending, closing)
    ensures out.answer.Answered? <==> Succeeds(ending, closing)
  {
    VerdictSucceeds(s, stop, ending, v);
    if ending.Ran? {
      StopExactly(ending);
    }
  }

  /** A reservation is still held for a call that no usage settled. */
  ghost predicate StillHeld(a: Account) {
    exists stage :: stage in a.attempts && !a.attempts[stage].settled && a.attempts[stage].reservation > 0
  }

  /** Stops after which nobody can tell what was sent or recorded. */
  predicate LosesTrack(stop: Stop) {
    stop == UncertainProvider || stop == LocalOrUncertainFailure || stop == EvidencePublication
  }

  /** The policy as the run left it, or as it was when nothing ran. */
  function StateOf(ending: Ending): State {
    if ending.Ran? then ending.body else ending.left
  }

  /** Why a result is uncertain before anything goes wrong in closing. */
  ghost predicate LeftUncertain(c: Config, ending: Ending) {
    match ending
    case FactoryRejected(_, _) => false
    case NotActivated(left, stop) => LosesTrack(stop) || left.account.marks != {} || StillHeld(left.account)
    case LocalBefore(left) => left.account.attempts != map[]
    case Ran(body, _, _, _, after) =>
      if RanThrough(ending) then after.LocalFailure? && body.account.attempts != map[]
      else LosesTrack(StoppedBy(ending)) || body.account.marks != {} || StillHeld(body.account)
  }

  lemma VerdictUncertain(s: State, stop: Option<Stop>, ending: Ending, v: Verdict)
    requires v == VerdictFrom(s, stop, ending)
    ensures v.status == Uncertain <==> match stop
      case Some(reason) => LosesTrack(reason) || s.account.marks != {} || StillHeld(s.account)
      case None =>
        s.account.attempts != map[] && !ending.FactoryRejected? && (ending.Ran? ==> ending.after.LocalFailure?)
  {
    HeldIsUnsettled(s.account);
  }

  /** A result is uncertain exactly when closing failed or cut it short, or the run lost track of what it sent, is in
      doubt about some stage, or still holds a reservation. */
  lemma UncertainExactly(c: Config, s: State, stop: Option<Stop>, ending: Ending, v: Verdict, closing: Closing,
                         out: Verdict)
    requires v == VerdictFrom(s, stop, ending) && stop == StopOf(ending) && ClosedAs(v, closing, out)
    requires s.account == StateOf(ending).account
    ensures out.status == Uncertain <==>
      closing.oversize || closing.evidenceFails || closing.closeFails || LeftUncertain(c, ending)
  {
    VerdictUncertain(s, stop, ending, v);
    if ending.Ran? {
      StopExactly(ending);
    }
  }

  lemma HeldIsUnsettled(a: Account)
    ensures StillHeld(a) <==> Unsettled(a.attempts)
  {}

  /** Where the code comes from: the last thing that went wrong. */
  ghost function CodeFrom(ending: Ending, closing: Closing): Option<HandlerCode> {
    if closing.oversize then Some(ResultTooLarge)
    else if closing.evidenceFails then Some(LocalEvidenceUnavailable)
    else if closing.closeFails then Some(ClientCloseFailed)
    else if ending.NotActivated? then Some(Published(ending.stop))
    else if ending.Ran? && !RanThrough(ending) then Some(Published(StoppedBy(ending)))
    else CodeWithoutStop(ending)
  }

  function CodeWithoutStop(ending: Ending): Option<HandlerCode> {
    match ending
    case FactoryRejected(_, invalid) => Some(if invalid then ClientFactoryInvalid else ClientInitializationFailed)
    case Ran(_, _, _, _, Bounded) => None
    case Ran(_, _, _, _, BoundedInvalid) => Some(ResultInvalid)
    case Ran(_, _, _, _, BoundedTooLarge) => Some(ResultTooLarge)
    case _ => Some(LocalExecutionUnavailable)
  }

  /** The published name of a stop. */
  function Published(stop: Stop): HandlerCode {
    if stop == UncertainProvider then ProviderOutcomeCode
    else if stop == LocalOrUncertainFailure then LocalOrUncertainCode
    else if stop == EvidencePublication then EvidencePublicationCode
    else if stop == ResultTooLargeStop then ResultTooLarge
    else if stop == LocalEvidenceStop then LocalEvidenceUnavailable
    else if stop == NotListed then SmokeStopped
    else OtherStopCode
  }

  lemma VerdictCode(s: State, stop: Option<Stop>, ending: Ending, v: Verdict)
    requires v == VerdictFrom(s, stop, ending)
    ensures v.code == match stop
      case Some(reason) => Some(Published(reason))
      case None => CodeWithoutStop(ending)
  {}

  lemma CodeExactly(s: State, stop: Option<Stop>, ending: Ending, v: Verdict, closing: Closing, out: Verdict)
    requires v == VerdictFrom(s, stop, ending) && stop == StopOf(ending) && ClosedAs(v, closing, out)
    ensures out.code == CodeFrom(ending, closing)
  {
    VerdictCode(s, stop, ending, v);
    if ending.Ran? {
      StopExactly(ending);
    }
  }

  lemma HeldAlone(c: Config, a: Account)
    requires Books(c, a) && !StillHeld(a)
    ensures Holds(a.attempts, Haiku) == Holds(a.attempts, Titan) == 0
  {
    forall stage | stage in a.attempts ensures a.attempts[stage].hold == 0 {
      assert AttemptOk(c, a.marks, a.violated, stage, a.attempts[stage]);
    }
  }

  /** A run that was stopped and is not uncertain holds nothing: its whole exposure is known charges. */
  lemma CertainIsSpent(c: Config, s: State, stop: Option<Stop>, ending: Ending, v: Verdict, closing: Closing,
                       out: Verdict, r: Report)
    requires ValidConfig(c) && RanReachably(c, ending) && s == FinalState(ending) && stop.Some?
    requires v == VerdictFrom(s, stop, ending) && ClosedAs(v, closing, out) && out.status != Uncertain
    requires r == ReportOf(c, s.account, false)
    ensures r.holdsHaiku == r.holdsTitan == 0
    ensures s.account.haiku == r.knownHaiku && s.account.titan == r.knownTitan
  {
    FinalBooks(c, ending, s);
    SpentFrom(c, s, stop, ending, v, closing, out);
    ReportSpends(c, s.account, r);
  }

  lemma SpentFrom(c: Config, s: State, stop: Option<Stop>, ending: Ending, v: Verdict, closing: Closing, out: Verdict)
    requires Books(c, s.account) && stop.Some? && out.status != Uncertain
    requires v == VerdictFrom(s, stop, ending) && ClosedAs(v, closing, out)
    ensures Holds(s.account.attempts, Haiku) == Holds(s.account.attempts, Titan) == 0
  {
    VerdictUncertain(s, stop, ending, v);
    HeldAlone(c, s.account);
  }

  lemma ReportSpends(c: Config, a: Account, r: Report)
    requires Conserved(a) && r == ReportOf(c, a, false)
    requires Holds(a.attempts, Haiku) == Holds(a.attempts, Titan) == 0
    ensures r.holdsHaiku == r.holdsTitan == 0 && a.haiku == r.knownHaiku && a.titan == r.knownTitan
  {}

  lemma FinalBooks(c: Config, ending: Ending, s: State)
    requires ValidConfig(c) && RanReachably(c, ending) && s == FinalState(ending)
    ensures Books(c, s.account)
  {
    FinalAccount(ending);
    if ending.Ran? {
      ReachableIsSound(c, ending.body);
    } else {
      FreshIsSound(c, ending.left);
    }
  }

  /** Status and code of what the handler emits, told from how the run ended and what closing met with. */
  lemma EmittedTells(c: Config, ending: Ending, closing: Closing)
    ensures var out := Emitted(c, ending, closing);
      && (out.status == StructuralSuccess <==> Succeeds(ending, closing))
      && (out.status == Uncertain <==>
            closing.oversize || closing.evidenceFails || closing.closeFails || LeftUncertain(c, ending))
      && out.code == CodeFrom(ending, closing)
  {
    var s, stop, out := FinalState(ending), StopOf(ending), Emitted(c, ending, closing);
    var v := VerdictFrom(s, stop, ending);
    EmittedForm(c, ending, closing, s, stop, out);
    FinalAccount(ending);
    EmittedClosed(c, s, v, closing, out);
    SuccessExactly(s, stop, ending, v, closing, Final(out));
    UncertainExactly(c, s, stop, ending, v, closing, Final(out));
    CodeExactly(s, stop, ending, v, closing, Final(out));
  }
}
