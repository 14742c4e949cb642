/** One greedy pass over the ranked strata: what it decides, and what it guarantees. */
module GreedyScan {
  import opened Results
  import opened Similarity
  import opened Ledger
  import opened Selection

  datatype Identity = Identity(source: string, candidateId: string)

  function IdentityOf(row: Row): Identity { Identity(row.source, row.candId) }

  datatype ConflictRecord =
    | NativeGroupConflict(with: Identity)
    | DirectSimilarityConflict(with: Identity, similarity: Score)

  datatype Decision = Decision(stratum: StratumKey, scanIndex: nat, identity: Identity, rank: nat, skipped: bool,
                               conflicts: seq<ConflictRecord>)

  datatype Status = Filled | Shortfall | NotStarted

  datatype StratumResult = StratumResult(stratum: StratumKey, quota: nat, status: Status, scanned: nat,
                                         accepted: nat, skipped: int)

  /** The records for one accepted row: native group first, similarity second. */
  function ConflictsOf(env: Env, row: Row, previous: Row): seq<ConflictRecord> {
    var score := env.score(row, previous);
    (if NativeConflict(row, previous) then [NativeGroupConflict(IdentityOf(previous))] else [])
    + (if Reaches(score) then [DirectSimilarityConflict(IdentityOf(previous), score)] else [])
  }

  function ConflictsWith(env: Env, row: Row, accepted: seq<Row>): seq<ConflictRecord> {
    if accepted == [] then [] else
      ConflictsWith(env, row, accepted[..|accepted| - 1]) + ConflictsOf(env, row, accepted[|accepted| - 1])
  }

  /** The row conflicts with an accepted row. */
  predicate Blocked(env: Env, row: Row, accepted: seq<Row>) {
    exists previous | previous in accepted :: Conflict(SimilarOf(env.score), row, previous)
  }

  lemma {:induction false} RecordsMeanBlocked(env: Env, row: Row, accepted: seq<Row>)
    ensures ConflictsWith(env, row, accepted) != [] <==> Blocked(env, row, accepted)
  {
    if accepted != [] {
      var init, last := accepted[..|accepted| - 1], accepted[|accepted| - 1];
      assert accepted == init + [last];
      RecordsMeanBlocked(env, row, init);
      assert ConflictsOf(env, row, last) != [] <==> Conflict(SimilarOf(env.score), row, last);
    }
  }

  function Decide(env: Env, row: Row, stratum: StratumKey, index: nat, conflicts: seq<ConflictRecord>): Decision {
    Decision(stratum, index, IdentityOf(row), RankingKey(env, row).digest, conflicts != [], conflicts)
  }

  // ---- the scan as a function

  datatype Progress = Progress(accepted: seq<Row>, decisions: seq<Decision>, count: nat, scanned: nat)

  /** One scanned row. */
  function Advance(env: Env, entry: Entry, row: Row, p: Progress): Progress {
    var conflicts := ConflictsWith(env, row, p.accepted);
    Progress(
      if conflicts == [] then p.accepted + [row] else p.accepted,
      p.decisions + [Decide(env, row, entry.stratum, p.scanned + 1, conflicts)],
      if conflicts == [] then p.count + 1 else p.count,
      p.scanned + 1)
  }

  /** Scan ranked rows until the quota is met. */
  function ScanFrom(env: Env, entry: Entry, ranked: seq<Row>, p: Progress): Progress {
    if ranked == [] then p else
      var next := Advance(env, entry, ranked[0], p);
      if next.count == entry.quota then next else ScanFrom(env, entry, ranked[1..], next)
  }

  datatype Run = Run(accepted: seq<Row>, decisions: seq<Decision>, results: seq<StratumResult>,
                     stopped: Option<StratumKey>)

  function Started(env: Env, rows: seq<Row>, entry: Entry, run: Run): Progress {
    ScanFrom(env, entry, RankedStratum(env, rows, entry.stratum), Progress(run.accepted, run.decisions, 0, 0))
  }

  function ResultOf(entry: Entry, p: Progress): StratumResult {
    StratumResult(entry.stratum, entry.quota, if p.count == entry.quota then Filled else Shortfall, p.scanned, p.count,
                  p.scanned - p.count)
  }

  function ScanEntry(env: Env, rows: seq<Row>, entry: Entry, run: Run): Run {
    if run.stopped.None? then
      var p := Started(env, rows, entry, run);
      Run(p.accepted, p.decisions, run.results + [ResultOf(entry, p)],
          if p.count < entry.quota then Some(entry.stratum) else None)
    else
      run.(results := run.results + [StratumResult(entry.stratum, entry.quota, NotStarted, 0, 0, 0)])
  }

  function ScanEntries(env: Env, rows: seq<Row>, entries: seq<Entry>, run: Run): Run {
    if entries == [] then run else ScanEntries(env, rows, entries[1..], ScanEntry(env, rows, entries[0], run))
  }

  const FRESH := Run([], [], [], None)

  function ScanRun(env: Env, rows: seq<Row>): Run {
    ScanEntries(env, rows, STRATUM_ENTRIES, FRESH)
  }

  // ---- the scan as the loops of the program

  method CollectConflicts(env: Env, row: Row, accepted: seq<Row>) returns (result: seq<ConflictRecord>)
    ensures result == ConflictsWith(env, row, accepted)
  {
    result := [];
    for i := 0 to |accepted|
      invariant result == ConflictsWith(env, row, accepted[..i])
    {
      var previous := accepted[i];
      var base := IdentityOf(previous);
      if NativeConflict(row, previous) {
        result := result + [NativeGroupConflict(base)];
      }
      var score := env.score(row, previous);
      if Reaches(score) {
        result := result + [DirectSimilarityConflict(base, score)];
      }
      assert accepted[..i + 1][..i] == accepted[..i];
    }
    assert accepted[..|accepted|] == accepted;
  }

  datatype ScanError = UnregisteredRow

  /** A candidate id of the right form, and a source and a stratum that are registered together. */
  predicate HasLabel(row: Row) {
    IsCandidateId(row.candId) && KeyOf(row) in STRATA
  }

  /** Every passing row can be labelled. */
  ghost predicate Registered(rows: seq<Row>) {
    forall row | row in rows && row.finalPass :: HasLabel(row)
  }

  method PrepareStratum(env: Env, rows: seq<Row>, stratum: StratumKey) returns (r: Result<seq<Row>, ScanError>)
    ensures r == if Registered(rows) then Ok(RankedStratum(env, rows, stratum)) else Err(UnregisteredRow)
  {
    for i := 0 to |rows|
      invariant forall row | row in rows[..i] && row.finalPass :: HasLabel(row)
    {
      if rows[i].finalPass && !HasLabel(rows[i]) {
        return Err(UnregisteredRow);
      }
    }
    assert rows[..|rows|] == rows;
    return Ok(RankedStratum(env, rows, stratum));
  }

  /** Unfolding the scan at its next row. */
  lemma ScanFromAt(env: Env, entry: Entry, ranked: seq<Row>, k: nat, p: Progress)
    requires k < |ranked|
    ensures ScanFrom(env, entry, ranked[k..], p) ==
      (var next := Advance(env, entry, ranked[k], p);
       if next.count == entry.quota then next else ScanFrom(env, entry, ranked[k + 1..], next))
  {
    assert ranked[k..][0] == ranked[k] && ranked[k..][1..] == ranked[k + 1..];
  }

  method ScanStratum(env: Env, entry: Entry, ranked: seq<Row>, start: Progress) returns (p: Progress)
    ensures p == ScanFrom(env, entry, ranked, start)
  {
    p := start;
    assert ranked[0..] == ranked;
    for k := 0 to |ranked|
      invariant ScanFrom(env, entry, ranked, start) == ScanFrom(env, entry, ranked[k..], p)
    {
      var row := ranked[k];
      ScanFromAt(env, entry, ranked, k, p);
      var scanned := p.scanned + 1;
      var conflicts := CollectConflicts(env, row, p.accepted);
      var accepted, count := p.accepted, p.count;
      var decisions := p.decisions + [Decide(env, row, entry.stratum, scanned, conflicts)];
      if conflicts == [] {
        accepted, count := accepted + [row], count + 1;
      }
      p := Progress(accepted, decisions, count, scanned);
      if count == entry.quota {
        return;
      }
    }
  }

  /** One stratum of the scan. */
  method ScanOne(env: Env, rows: seq<Row>, entry: Entry, run: Run) returns (r: Result<Run, ScanError>)
    ensures r == (
      if run.stopped.Some? || Registered(rows) then Ok(ScanEntry(env, rows, entry, run)) else Err(UnregisteredRow))
  {
    if run.stopped.None? {
      var ranked := PrepareStratum(env, rows, entry.stratum);
      if ranked.Err? {
        return Err(ranked.code);
      }
      var p := ScanStratum(env, entry, ranked.value, Progress(run.accepted, run.decisions, 0, 0));
      var stopped := if p.count < entry.quota then Some(entry.stratum) else None;
      var status := if p.count == entry.quota then Filled else Shortfall;
      return Ok(Run(p.accepted, p.decisions,
        run.results + [StratumResult(entry.stratum, entry.quota, status, p.scanned, p.count, p.scanned - p.count)],
        stopped));
    }
    return Ok(run.(results := run.results + [StratumResult(entry.stratum, entry.quota, NotStarted, 0, 0, 0)]));
  }

  lemma ScanEntriesAt(env: Env, rows: seq<Row>, entries: seq<Entry>, i: nat, run: Run)
    requires i < |entries|
    ensures ScanEntries(env, rows, entries[i..], run)
         == ScanEntries(env, rows, entries[i + 1..], ScanEntry(env, rows, entries[i], run))
  {
    assert entries[i..][0] == entries[i] && entries[i..][1..] == entries[i + 1..];
  }

  /** The six strata in table order; nothing is prepared after a shortfall. */
  method ScanAll(env: Env, rows: seq<Row>, entries: seq<Entry>) returns (r: Result<Run, ScanError>)
    ensures r == if entries == [] || Registered(rows) then Ok(ScanEntries(env, rows, entries, FRESH))
                 else Err(UnregisteredRow)
  {
    var run := FRESH;
    assert entries[0..] == entries;
    for i := 0 to |entries|
      invariant i > 0 ==> Registered(rows)
      invariant i == 0 ==> run == FRESH
      invariant ScanEntries(env, rows, entries, FRESH) == ScanEntries(env, rows, entries[i..], run)
    {
      ScanEntriesAt(env, rows, entries, i, run);
      var next := ScanOne(env, rows, entries[i], run);
      if next.Err? {
        return Err(next.code);
      }
      run := next.value;
    }
    return Ok(run);
  }

  method Scan(env: Env, rows: seq<Row>) returns (r: Result<Run, ScanError>)
    ensures r == if Registered(rows) then Ok(ScanRun(env, rows)) else Err(UnregisteredRow)
  {
    r := ScanAll(env, rows, STRATUM_ENTRIES);
  }
}
