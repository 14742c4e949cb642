/** What a complete capture says of its calls and its files, in the terms of the calls themselves. */
module CaptureMeaning {
  import opened Results
  import opened JsonTree
  import opened JsonPaths
  import opened Capture

  /** The k-th call: its client could be made, the clocks were good and moved on, the reply was a bounded dictionary
      after no retry and as expected, it came no earlier than it was asked for, and its files were written. */
  ghost predicate WentWell(turns: Turns, k: nat) {
    var t := turns(k);
    && (k == 0 || k == 1 ==> t.clientAvailable)
    && t.started.At? && t.before.Steady? && t.after.Steady?
    && (k > 0 && turns(k - 1).started.At? ==> turns(k - 1).started.instant < t.started.instant)
    && t.received.At? && t.received.instant >= t.started.instant
    && t.reply.Answers? && t.reply.value.Dict? && t.reply.serializes && t.reply.retries == Some(0) && t.reply.expected
    && GoodEverywhere(t.reply.value, 1, 64) && Nodes(t.reply.value) <= 100000
    && t.observation.Writes? && (k > 0 ==> t.record.Writes?)
  }

  lemma GoodTurnExactly(turns: Turns, k: nat)
    ensures GoodTurn(turns(k), PreviousStart(turns, k), k < 2, k > 0, 64) <==> WentWell(turns, k)
  {
    if turns(k).reply.Answers? {
      WellFormedEverywhere(turns(k).reply.value, 1, 64);
    }
  }

  /** A run of calls is smooth exactly when each of them went well. */
  lemma SmoothMeans(turns: Turns, n: nat)
    ensures Smooth(turns, n) <==> forall k: nat | k < n :: WentWell(turns, k)
  {
    forall k: nat
      ensures GoodTurn(turns(k), PreviousStart(turns, k), k < 2, k > 0, DIGITS) <==> WentWell(turns, k)
    {
      GoodTurnExactly(turns, k);
    }
    if Smooth(turns, n) {
      forall k: nat | k < n ensures WentWell(turns, k) {
        assert GoodTurn(turns(k), PreviousStart(turns, k), k < 2, k > 0, DIGITS);
      }
    }
  }

  /** In a smooth run each call starts after the one before it. */
  lemma StartsAscend(turns: Turns, n: nat, k: nat)
    requires Smooth(turns, n) && 0 < k < n
    ensures turns(k - 1).started.At? && turns(k).started.At?
    ensures turns(k - 1).started.instant < turns(k).started.instant
  {
    SmoothMeans(turns, n);
    assert WentWell(turns, k) && WentWell(turns, k - 1);
  }

  /** The subject of a call: the account first, then the planned roles in order. */
  function SubjectOf(plan: Plan, call: nat): Label
    requires 1 <= call <= 1 + |plan.observations|
  {
    if call == 1 then AccountVerification else ForRole(plan.observations[call - 2].role)
  }

  ghost predicate IsFileOf(plan: Plan, n: nat, name: FileName)
    requires n <= 1 + |plan.observations|
  {
    || name == PlanFile
    || (exists call: nat :: 1 <= call <= n && name == ObservationFile(call, SubjectOf(plan, call)))
    || (exists call: nat :: 2 <= call <= n && name == RecordFile(call, SubjectOf(plan, call)))
  }

  /** The files after n calls that went well: the plan, one observation for each call, and one record for each call but
      the first, numbered from one. */
  lemma {:induction false} FilesExactly(plan: Plan, n: nat, name: FileName)
    requires n <= 1 + |plan.observations|
    ensures name in FilesAfter(plan, n) <==> IsFileOf(plan, n, name)
  {
    if n > 0 {
      FilesExactly(plan, n - 1, name);
      assert LabelAt(plan, n - 1) == SubjectOf(plan, n);
      if name == ObservationFile(n, SubjectOf(plan, n)) {
        assert IsFileOf(plan, n, name);
      }
      if name == RecordFile(n, SubjectOf(plan, n)) && n > 1 {
        assert IsFileOf(plan, n, name);
      }
      if IsFileOf(plan, n - 1, name) {
        assert IsFileOf(plan, n, name);
      }
    }
  }
}
