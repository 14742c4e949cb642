/** The greedy run and the exact solver: a successful scan is a witness of feasibility. */
module SelectorLink {
  import opened Results
  import opened Similarity
  import opened SimilarityMeaning
  import opened Ledger
  import opened Selection
  import opened GreedyScan
  import opened ScanGuarantees
  import opened Constraints

  /** The rows the audit hands to the solver. */
  function Retained(rows: seq<Row>): seq<Row> {
    if rows == [] then [] else (if rows[0].finalPass then [rows[0]] else []) + Retained(rows[1..])
  }

  lemma {:induction false} RetainedMembers(rows: seq<Row>, row: Row)
    ensures row in Retained(rows) <==> row in rows && row.finalPass
  {
    if rows != [] {
      assert rows == [rows[0]] + rows[1..];
      RetainedMembers(rows[1..], row);
    }
  }

  function QuotaMap(): map<StratumKey, int> {
    map key | key in STRATA :: QuotaOf(key, |STRATA|)
  }

  function QuotaOf(key: StratumKey, n: nat): int
    requires n <= |STRATA| == |QUOTAS|
  {
    if n == 0 then 0 else if STRATA[n - 1] == key then QUOTAS[n - 1] else QuotaOf(key, n - 1)
  }

  lemma QuotaMapIsTable(t: nat)
    requires t < |STRATA|
    ensures ValidQuotas(QuotaMap()) && STRATA[t] in QuotaMap() && QuotaMap()[STRATA[t]] == QUOTAS[t]
  {
    assert QuotaMap().Keys == (set key | key in STRATA);
    forall key | key in QuotaMap() ensures QuotaMap()[key] >= 0 {
      QuotaNonnegative(key, |STRATA|);
    }
    TableIsValid();
    QuotaAt(t, |STRATA|);
  }

  lemma {:induction false} QuotaNonnegative(key: StratumKey, n: nat)
    requires n <= |STRATA| == |QUOTAS|
    ensures QuotaOf(key, n) >= 0
  {
    if n > 0 { QuotaNonnegative(key, n - 1); }
  }

  lemma {:induction false} QuotaAt(t: nat, n: nat)
    requires t < n <= |STRATA| == |QUOTAS|
    ensures QuotaOf(STRATA[t], n) == QUOTAS[t]
  {
    TableIsValid();
    if t < n - 1 {
      assert STRATUM_ENTRIES[t].stratum != STRATUM_ENTRIES[n - 1].stratum;
      QuotaAt(t, n - 1);
    }
  }

  /** A conflict-free list of ledger rows, as a set of ledger positions with the same counts. */
  lemma {:induction false} Positions(env: Env, rows: seq<Row>, accepted: seq<Row>) returns (chosen: set<nat>)
    requires Symmetric(SimilarOf(env.score)) && ConflictFree(env, accepted)
    requires forall row | row in accepted :: row in rows
    ensures Independent(SimilarOf(env.score), rows, chosen)
    ensures forall i | i in chosen :: i < |rows| && rows[i] in accepted
    ensures forall key :: Count(rows, chosen, key) == AcceptedCount(accepted, key)
  {
    if accepted == [] {
      chosen := {};
      forall key ensures Members(rows, chosen, key) == {} {}
    } else {
      var n := |accepted| - 1;
      var last := accepted[n];
      var before := Positions(env, rows, accepted[..n]);
      assert last in rows;
      var i: nat :| i < |rows| && rows[i] == last;
      forall j | j in before ensures !Conflict(SimilarOf(env.score), last, rows[j]) {
        var k :| 0 <= k < n && accepted[k] == rows[j];
      }
      SelfConflict(env, last);
      assert i !in before;
      chosen := before + {i};
      forall a, b | a in chosen && b in chosen && a != b ensures !Conflict(SimilarOf(env.score), rows[a], rows[b]) {
        assert Conflict(SimilarOf(env.score), rows[a], rows[b]) == Conflict(SimilarOf(env.score), rows[b], rows[a]);
      }
      forall key ensures Count(rows, chosen, key) == AcceptedCount(accepted, key) {
        CountDisjoint(rows, before, {i}, key);
        assert Members(rows, {i}, key) == if KeyOf(last) == key then {i} else {};
      }
    }
  }

  lemma SelfConflict(env: Env, row: Row)
    ensures Conflict(SimilarOf(env.score), row, row)
  {}

  lemma FilledIsFeasible(env: Env, rows: seq<Row>, entries: seq<Entry>, run: Run)
    requires Symmetric(SimilarOf(env.score)) && |entries| == |STRATA| == |QUOTAS|
    requires forall t | 0 <= t < |STRATA| :: entries[t] == Entry(STRATA[t], QUOTAS[t])
    requires RunInvariant(env, rows, entries, |entries|, run) && run.stopped.None?
    ensures ValidQuotas(QuotaMap()) && Feasible(SimilarOf(env.score), Retained(rows), QuotaMap())
  {
    forall row | row in run.accepted ensures row in Retained(rows) { RetainedMembers(rows, row); }
    var chosen := Positions(env, Retained(rows), run.accepted);
    QuotaMapIsTable(0);
    forall key | key in STRATA ensures Count(Retained(rows), chosen, key) >= QuotaMap()[key] {
      var t: nat :| t < |STRATA| && STRATA[t] == key;
      QuotaMapIsTable(t);
      assert ResultAgrees(entries[t], run.results[t], run.accepted);
    }
    assert MeetsQuotas(Retained(rows), chosen, QuotaMap());
  }

  /** If the scan fills every stratum, the solver's question on the retained rows, with the same
      quotas, has the answer yes. */
  lemma SuccessIsFeasible(env: Env, rows: seq<Row>)
    requires Symmetric(SimilarOf(env.score))
    ensures ValidQuotas(QuotaMap())
    ensures ScanRun(env, rows).stopped.None? ==> Feasible(SimilarOf(env.score), Retained(rows), QuotaMap())
  {
    QuotaMapIsTable(0);
    ScanIsSafe(env, rows);
    TableIsValid();
    if ScanRun(env, rows).stopped.None? {
      FilledIsFeasible(env, rows, STRATUM_ENTRIES, ScanRun(env, rows));
    }
  }

  /** No two rows share source and group, and no two texts match at 0.9 or more. */
  ghost predicate Apart(fold: Fold, rows: seq<Row>) {
    forall i, j | 0 <= i < j < |rows| ::
      && !(rows[i].source == rows[j].source && rows[i].group == rows[j].group)
      && !Alike(fold(rows[j].question), fold(rows[i].question))
  }

  lemma AcceptedAreApart(fold: Fold, digest: Digest, rows: seq<Row>)
    ensures Apart(fold, ScanRun(Env(ScoreBy(fold), digest), rows).accepted)
  {
    var env := Env(ScoreBy(fold), digest);
    var accepted := ScanRun(env, rows).accepted;
    ScanIsSafe(env, rows);
    forall i, j | 0 <= i < j < |accepted|
      ensures !(accepted[i].source == accepted[j].source && accepted[i].group == accepted[j].group)
      ensures !Alike(fold(accepted[j].question), fold(accepted[i].question))
    {
      ConflictIsAlike(fold, accepted[j], accepted[i]);
    }
  }

  /** A run with the similarity of the program, checked by the solver of the program. */
  method SelectAndProve(fold: Fold, digest: Digest, rows: seq<Row>)
    returns (run: Result<Run, ScanError>, proof: Result<Summary, SummaryError>)
    ensures run == if Registered(rows) then Ok(ScanRun(Env(ScoreBy(fold), digest), rows)) else Err(UnregisteredRow)
    ensures run.Ok? ==> Apart(fold, run.value.accepted)
    ensures ValidQuotas(QuotaMap())
    ensures proof.Ok? ==>
      (proof.value.feasible <==> Feasible(SimilarOf(ScoreBy(fold)), Retained(rows), QuotaMap()))
    ensures run.Ok? && run.value.stopped.None? && proof.Ok? ==> proof.value.feasible
    ensures run.Ok? ==> (proof.Err? <==> SomeComponentTooLarge(SimilarOf(ScoreBy(fold)), Retained(rows)))
  {
    var env := Env(ScoreBy(fold), digest);
    SimilarBySymmetric(fold);
    QuotaMapIsTable(0);
    run := Scan(env, rows);
    AcceptedAreApart(fold, digest, rows);
    proof := ConstraintSummary(SimilarOf(env.score), Retained(rows), QuotaMap());
    if run.Ok? && run.value.stopped.None? {
      SuccessIsFeasible(env, rows);
    }
  }

  lemma ConflictFreeIsDiverse(env: Env, accepted: seq<Row>)
    requires Symmetric(SimilarOf(env.score)) && ConflictFree(env, accepted)
    ensures Diverse(SimilarOf(env.score), accepted)
  {
    forall i, j | 0 <= i < |accepted| && 0 <= j < |accepted| && i != j
      ensures !Conflict(SimilarOf(env.score), accepted[i], accepted[j])
    {
      assert Conflict(SimilarOf(env.score), accepted[i], accepted[j])
          == Conflict(SimilarOf(env.score), accepted[j], accepted[i]);
    }
  }

  /** The accepted rows of any run pass the diversity check of the packet. */
  lemma AcceptedAreDiverse(env: Env, rows: seq<Row>)
    requires Symmetric(SimilarOf(env.score))
    ensures Diverse(SimilarOf(env.score), ScanRun(env, rows).accepted)
  {
    ScanIsSafe(env, rows);
    ConflictFreeIsDiverse(env, ScanRun(env, rows).accepted);
  }
}
