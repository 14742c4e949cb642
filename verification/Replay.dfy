/** The receipt of a scan and its independent replay. */
module Replay {
  import opened Results
  import opened Ledger
  import opened Selection
  import opened GreedyScan
  import opened ScanGuarantees

  datatype ReceiptStatus = Success | Stopped

  datatype Receipt = Receipt(
    status: ReceiptStatus,
    inputs: string,
    seed: int,
    results: seq<StratumResult>,
    decisions: seq<Decision>,
    acceptedIdentities: seq<Identity>,
    stopped: Option<StratumKey>,
    packet: Option<string>,
    mapping: Option<string>)

  function Identities(accepted: seq<Row>): seq<Identity> {
    seq(|accepted|, i requires 0 <= i < |accepted| => IdentityOf(accepted[i]))
  }

  /** The receipt the scan writes; the output hashes are filled in later, on success only. */
  function ReceiptOf(run: Run, inputs: string): Receipt {
    Receipt(if run.stopped.None? then Success else Stopped, inputs, SEED, run.results, run.decisions,
            Identities(run.accepted), run.stopped, None, None)
  }

  predicate HexDigest(value: Option<string>) {
    value.Some? && |value.value| == 64 && forall c | c in value.value :: HexDigit(c)
  }

  /** The scan's receipt, apart from the two output hashes: absent after a shortfall, hex on success. */
  ghost predicate Genuine(run: Run, receipt: Receipt, inputs: string) {
    && receipt == ReceiptOf(run, inputs).(packet := receipt.packet, mapping := receipt.mapping)
    && (if run.stopped.Some? then receipt.packet.None? && receipt.mapping.None?
        else HexDigest(receipt.packet) && HexDigest(receipt.mapping))
  }

  datatype ReplayError =
    | ReceiptBinding | ReceiptArrays | ReceiptDecision | ReceiptCounter | ReceiptResult
    | ShortfallOutputs | ProductionSize | Sha256Type | Refused(error: ScanError)

  lemma {:induction false} EntriesExtend(env: Env, rows: seq<Row>, entries: seq<Entry>, run: Run)
    ensures run.decisions <= ScanEntries(env, rows, entries, run).decisions
    ensures run.results <= ScanEntries(env, rows, entries, run).results
    ensures |ScanEntries(env, rows, entries, run).results| == |run.results| + |entries|
  {
    if entries != [] {
      if run.stopped.None? {
        ScanAddsRanked(env, entries[0], RankedStratum(env, rows, entries[0].stratum),
          Progress(run.accepted, run.decisions, 0, 0));
      }
      EntriesExtend(env, rows, entries[1..], ScanEntry(env, rows, entries[0], run));
    }
  }

  /** What remains of the scan once the decisions up to the cursor have been replayed. */
  ghost function Remaining(env: Env, entry: Entry, ranked: seq<Row>, k: nat, accepted: seq<Row>,
                           recorded: seq<Decision>, cursor: nat, count: nat, scanned: nat): Progress
    requires cursor <= |recorded| && k <= |ranked|
  {
    ScanFrom(env, entry, ranked[k..], Progress(accepted, recorded[..cursor], count, scanned))
  }

  /** A recorded decision that agrees moves the cursor; one that differs refutes the receipt. */
  lemma ReplayStep(env: Env, entry: Entry, ranked: seq<Row>, k: nat, accepted: seq<Row>, recorded: seq<Decision>,
                   cursor: nat, count: nat, scanned: nat)
    requires cursor <= |recorded| && k < |ranked|
    ensures var conflicts := ConflictsWith(env, ranked[k], accepted);
            var expected := Decide(env, ranked[k], entry.stratum, scanned + 1, conflicts);
            var kept := if conflicts == [] then accepted + [ranked[k]] else accepted;
            var n := if conflicts == [] then count + 1 else count;
            var all := Remaining(env, entry, ranked, k, accepted, recorded, cursor, count, scanned);
            if cursor == |recorded| || recorded[cursor] != expected then !(all.decisions <= recorded)
            else if n == entry.quota then all == Progress(kept, recorded[..cursor + 1], n, scanned + 1)
            else all == Remaining(env, entry, ranked, k + 1, kept, recorded, cursor + 1, n, scanned + 1)
  {
    var p := Progress(accepted, recorded[..cursor], count, scanned);
    var next := Advance(env, entry, ranked[k], p);
    var expected := Decide(env, ranked[k], entry.stratum, scanned + 1, ConflictsWith(env, ranked[k], accepted));
    ScanFromAt(env, entry, ranked, k, p);
    ScanAddsRanked(env, entry, ranked[k + 1..], next);
    if cursor == |recorded| || recorded[cursor] != expected {
      MismatchIsNoPrefix(recorded, cursor, expected,
        Remaining(env, entry, ranked, k, accepted, recorded, cursor, count, scanned).decisions);
    } else {
      assert recorded[..cursor + 1] == recorded[..cursor] + [expected];
    }
  }

  /** Replays one stratum against the recorded decisions, starting at the cursor. */
  method ReplayStratum(env: Env, entry: Entry, ranked: seq<Row>, start: seq<Row>, recorded: seq<Decision>, from: nat)
    returns (ok: bool, accepted: seq<Row>, count: nat, scanned: nat, cursor: nat)
    requires from <= |recorded|
    ensures ok ==> cursor <= |recorded| && Remaining(env, entry, ranked, 0, start, recorded, from, 0, 0)
                                        == Progress(accepted, recorded[..cursor], count, scanned)
    ensures !ok ==> !(Remaining(env, entry, ranked, 0, start, recorded, from, 0, 0).decisions <= recorded)
  {
    accepted, count, scanned, cursor := start, 0, 0, from;
    for k := 0 to |ranked|
      invariant cursor <= |recorded|
      invariant Remaining(env, entry, ranked, 0, start, recorded, from, 0, 0)
             == Remaining(env, entry, ranked, k, accepted, recorded, cursor, count, scanned)
    {
      var row := ranked[k];
      ReplayStep(env, entry, ranked, k, accepted, recorded, cursor, count, scanned);
      scanned := scanned + 1;
      var conflicts := CollectConflicts(env, row, accepted);
      var expected := Decide(env, row, entry.stratum, scanned, conflicts);
      if cursor >= |recorded| || recorded[cursor] != expected {
        return false, accepted, count, scanned, cursor;
      }
      cursor := cursor + 1;
      if conflicts == [] {
        accepted := accepted + [row];
        count := count + 1;
      }
      if count == entry.quota {
        return true, accepted, count, scanned, cursor;
      }
    }
    ok := true;
  }

  lemma MismatchIsNoPrefix(recorded: seq<Decision>, cursor: nat, expected: Decision, all: seq<Decision>)
    requires cursor <= |recorded| && recorded[..cursor] + [expected] <= all
    requires cursor == |recorded| || recorded[cursor] != expected
    ensures !(all <= recorded)
  {
    assert (recorded[..cursor] + [expected])[cursor] == expected;
    assert all[cursor] == expected;
  }

  // ---- the size of a full selection

  ghost function TotalAccepted(results: seq<StratumResult>): nat {
    if results == [] then 0 else TotalAccepted(results[..|results| - 1]) + results[|results| - 1].accepted
  }

  lemma {:induction false} ScanGrows(env: Env, entry: Entry, ranked: seq<Row>, p: Progress)
    ensures |ScanFrom(env, entry, ranked, p).accepted| - |p.accepted| == ScanFrom(env, entry, ranked, p).count - p.count
  {
    if ranked != [] {
      ScanGrows(env, entry, ranked[1..], Advance(env, entry, ranked[0], p));
    }
  }

  lemma EntryGrows(env: Env, rows: seq<Row>, entry: Entry, run: Run)
    requires |run.accepted| == TotalAccepted(run.results)
    ensures |ScanEntry(env, rows, entry, run).accepted| == TotalAccepted(ScanEntry(env, rows, entry, run).results)
  {
    var next := ScanEntry(env, rows, entry, run);
    ScanGrows(env, entry, RankedStratum(env, rows, entry.stratum), Progress(run.accepted, run.decisions, 0, 0));
    assert next.results[..|run.results|] == run.results;
  }

  lemma {:induction false} EntriesGrow(env: Env, rows: seq<Row>, entries: seq<Entry>, run: Run)
    requires |run.accepted| == TotalAccepted(run.results)
    ensures |ScanEntries(env, rows, entries, run).accepted|
      == TotalAccepted(ScanEntries(env, rows, entries, run).results)
  {
    if entries != [] {
      EntryGrows(env, rows, entries[0], run);
      EntriesGrow(env, rows, entries[1..], ScanEntry(env, rows, entries[0], run));
    }
  }

  lemma FullSize(env: Env, rows: seq<Row>, entries: seq<Entry>, run: Run)
    requires |entries| == 6 && |run.accepted| == TotalAccepted(run.results)
    requires forall t | 0 <= t < 6 :: entries[t].quota == QUOTAS[t]
    requires RunInvariant(env, rows, entries, 6, run) && run.stopped.None?
    ensures |run.accepted| == 24
  {
    assert run.results == run.results[..6];
    SumOfQuotas(env, rows, entries, run, 6);
  }

  lemma {:induction false} SumOfQuotas(env: Env, rows: seq<Row>, entries: seq<Entry>, run: Run, n: nat)
    requires |entries| == 6 && RunInvariant(env, rows, entries, 6, run) && run.stopped.None? && n <= 6
    requires forall t | 0 <= t < 6 :: entries[t].quota == QUOTAS[t]
    ensures TotalAccepted(run.results[..n]) == [0, 4, 8, 12, 18, 22, 24][n]
  {
    if n > 0 {
      SumOfQuotas(env, rows, entries, run, n - 1);
      assert run.results[..n][..n - 1] == run.results[..n - 1];
      assert ResultAgrees(entries[n - 1], run.results[n - 1], run.accepted);
    }
  }

  // ---- the replay

  /** What the replay carries from stratum to stratum. */
  datatype Cursor = Cursor(accepted: seq<Row>, position: nat, stopped: Option<StratumKey>)

  /** The replayed part of the scan. */
  ghost predicate Tracks(cursor: Cursor, recorded: seq<Decision>, run: Run) {
    && cursor.position <= |recorded|
    && run.accepted == cursor.accepted && run.decisions == recorded[..cursor.position] && run.stopped == cursor.stopped
  }

  method ReplayOne(env: Env, rows: seq<Row>, entry: Entry, result: StratumResult, recorded: seq<Decision>,
                   before: Cursor, ghost run: Run)
    returns (r: Result<Cursor, ReplayError>)
    requires Tracks(before, recorded, run)
    ensures r.Ok? ==> Tracks(r.value, recorded, ScanEntry(env, rows, entry, run))
                      && ScanEntry(env, rows, entry, run).results == run.results + [result]
                      && (before.stopped.None? ==> Registered(rows))
    ensures r.Err? ==> (before.stopped.None? && !Registered(rows))
                       || !(ScanEntry(env, rows, entry, run).decisions <= recorded)
                       || !(run.results + [result] <= ScanEntry(env, rows, entry, run).results)
  {
    var accepted, position, stopped := before.accepted, before.position, before.stopped;
    var count, scanned, status := 0, 0, NotStarted;
    if stopped.None? {
      var ranked := PrepareStratum(env, rows, entry.stratum);
      if ranked.Err? {
        return Err(Refused(ranked.code));
      }
      var ok;
      assert ranked.value[0..] == ranked.value;
      ok, accepted, count, scanned, position := ReplayStratum(env, entry, ranked.value, accepted, recorded, position);
      if !ok {
        return Err(ReceiptDecision);
      }
      status := if count == entry.quota then Filled else Shortfall;
      if count < entry.quota {
        stopped := Some(entry.stratum);
      }
    }
    var expected := StratumResult(entry.stratum, entry.quota, status, scanned, count, scanned - count);
    assert ScanEntry(env, rows, entry, run).results == run.results + [expected];
    if result != expected {
      assert (run.results + [result])[|run.results|] == result;
      return Err(ReceiptCounter);
    }
    return Ok(Cursor(accepted, position, stopped));
  }

  method ReplayStrata(env: Env, rows: seq<Row>, entries: seq<Entry>, receipt: Receipt)
    returns (r: Result<Cursor, ReplayError>)
    requires |receipt.results| == |entries|
    ensures r.Ok? ==> Tracks(r.value, receipt.decisions, ScanEntries(env, rows, entries, FRESH))
                      && ScanEntries(env, rows, entries, FRESH).results == receipt.results
                      && (entries != [] ==> Registered(rows))
    ensures r.Err? ==> !Registered(rows)
                       || !(ScanEntries(env, rows, entries, FRESH).decisions <= receipt.decisions)
                       || ScanEntries(env, rows, entries, FRESH).results != receipt.results
  {
    var cursor := Cursor([], 0, None);
    ghost var run := FRESH;
    assert entries[0..] == entries;
    for i := 0 to |entries|
      invariant Tracks(cursor, receipt.decisions, run) && run.results == receipt.results[..i]
      invariant ScanEntries(env, rows, entries, FRESH) == ScanEntries(env, rows, entries[i..], run)
      invariant i == 0 ==> cursor.stopped.None?
      invariant i > 0 ==> Registered(rows)
    {
      ScanEntriesAt(env, rows, entries, i, run);
      ghost var next := ScanEntry(env, rows, entries[i], run);
      EntriesExtend(env, rows, entries[i + 1..], next);
      assert receipt.results[..i + 1] == run.results + [receipt.results[i]];
      var step := ReplayOne(env, rows, entries[i], receipt.results[i], receipt.decisions, cursor, run);
      if step.Err? {
        return Err(step.code);
      }
      cursor := step.value;
      run := next;
    }
    return Ok(cursor);
  }

  /** The closing checks of the replay. */
  method FinishReplay(receipt: Receipt, inputs: string, ghost run: Run, cursor: Cursor)
    returns (r: Result<seq<Row>, ReplayError>)
    requires Tracks(cursor, receipt.decisions, run)
    requires run.results == receipt.results && receipt.inputs == inputs && receipt.seed == SEED
    requires run.stopped.None? ==> |run.accepted| == 24
    ensures r.Ok? <==> Genuine(run, receipt, inputs)
    ensures r.Ok? ==> r.value == cursor.accepted
  {
    var Cursor(accepted, position, stopped) := cursor;
    if position != |receipt.decisions| || receipt.acceptedIdentities != Identities(accepted)
      || receipt.stopped != stopped || receipt.status != if stopped.None? then Success else Stopped
    {
      return Err(ReceiptResult);
    }
    assert receipt == ReceiptOf(run, inputs).(packet := receipt.packet, mapping := receipt.mapping);
    if stopped.Some? {
      if receipt.packet.Some? || receipt.mapping.Some? {
        return Err(ShortfallOutputs);
      }
    } else {
      if |accepted| != 24 {
        return Err(ProductionSize);
      }
      if !HexDigest(receipt.packet) || !HexDigest(receipt.mapping) {
        return Err(Sha256Type);
      }
    }
    return Ok(accepted);
  }

  method ReplayTable(env: Env, rows: seq<Row>, entries: seq<Entry>, receipt: Receipt, inputs: string)
    returns (r: Result<seq<Row>, ReplayError>)
    requires |entries| == 6 && ValidEntries(entries)
    requires forall t | 0 <= t < 6 :: entries[t].quota == QUOTAS[t]
    ensures r.Ok? <==> Registered(rows) && Genuine(ScanEntries(env, rows, entries, FRESH), receipt, inputs)
    ensures r.Ok? ==> r.value == ScanEntries(env, rows, entries, FRESH).accepted
  {
    ghost var run := ScanEntries(env, rows, entries, FRESH);
    EntriesExtend(env, rows, entries, FRESH);
    if receipt.inputs != inputs || receipt.seed != SEED {
      return Err(ReceiptBinding);
    }
    if |receipt.results| != 6 {
      return Err(ReceiptArrays);
    }
    var replayed := ReplayStrata(env, rows, entries, receipt);
    if replayed.Err? {
      return Err(replayed.code);
    }
    FullTableSize(env, rows, entries);
    r := FinishReplay(receipt, inputs, run, replayed.value);
  }

  lemma FullTableSize(env: Env, rows: seq<Row>, entries: seq<Entry>)
    requires |entries| == 6 && ValidEntries(entries)
    requires forall t | 0 <= t < 6 :: entries[t].quota == QUOTAS[t]
    ensures ScanEntries(env, rows, entries, FRESH).stopped.None? ==>
      |ScanEntries(env, rows, entries, FRESH).accepted| == 24
  {
    assert entries[0..] == entries;
    RunKeeps(env, rows, entries, 0, FRESH);
    EntriesGrow(env, rows, entries, FRESH);
    if ScanEntries(env, rows, entries, FRESH).stopped.None? {
      FullSize(env, rows, entries, ScanEntries(env, rows, entries, FRESH));
    }
  }

  /** `replay_receipt`: accepts the scan's own receipt and nothing else, and returns the scan's rows. */
  method ReplayReceipt(env: Env, rows: seq<Row>, receipt: Receipt, inputs: string)
    returns (r: Result<seq<Row>, ReplayError>)
    ensures r.Ok? <==> Registered(rows) && Genuine(ScanRun(env, rows), receipt, inputs)
    ensures r.Ok? ==> r.value == ScanRun(env, rows).accepted
  {
    TableIsValid();
    r := ReplayTable(env, rows, STRATUM_ENTRIES, receipt, inputs);
  }
}
