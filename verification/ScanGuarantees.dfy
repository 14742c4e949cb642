/** What the greedy scan guarantees, for every ledger, score and digest. */
module ScanGuarantees {
  import opened Results
  import opened Ledger
  import opened Selection
  import opened GreedyScan

  // ---- the greedy rule, stated without the scan

  /** The ranked rows that the first k decisions accept. */
  ghost function Kept(ranked: seq<Row>, decisions: seq<Decision>, k: nat): seq<Row>
    requires k <= |decisions| && k <= |ranked|
  {
    if k == 0 then [] else
      Kept(ranked, decisions, k - 1) + (if decisions[k - 1].skipped then [] else [ranked[k - 1]])
  }

  /** Decision k is about the k-th ranked row, records its conflicts with everything accepted
      before it, skips it exactly when there is one, and comes before the quota is met. */
  ghost predicate GreedyAt(env: Env, entry: Entry, ranked: seq<Row>, base: seq<Row>, decisions: seq<Decision>, k: nat)
    requires k < |decisions| && k < |ranked|
  {
    var accepted := base + Kept(ranked, decisions, k);
    && |Kept(ranked, decisions, k)| < entry.quota
    && decisions[k] == Decide(env, ranked[k], entry.stratum, k + 1, ConflictsWith(env, ranked[k], accepted))
    && (decisions[k].skipped <==> Blocked(env, ranked[k], accepted))
  }

  ghost predicate GreedyPrefix(env: Env, entry: Entry, ranked: seq<Row>, base: seq<Row>, decisions: seq<Decision>) {
    && |decisions| <= |ranked|
    && (forall k: nat | k < |decisions| :: GreedyAt(env, entry, ranked, base, decisions, k))
  }

  /** A full pass: it ends at the quota or at the end of the ranked list. */
  ghost predicate Greedy(env: Env, entry: Entry, ranked: seq<Row>, base: seq<Row>, decisions: seq<Decision>) {
    && GreedyPrefix(env, entry, ranked, base, decisions)
    && (|Kept(ranked, decisions, |decisions|)| >= entry.quota || |decisions| == |ranked|)
  }

  lemma {:induction false} KeptOfLonger(ranked: seq<Row>, decisions: seq<Decision>, other: seq<Decision>, k: nat)
    requires k <= |decisions| && k <= |ranked| && k <= |other| && decisions[..k] == other[..k]
    ensures Kept(ranked, decisions, k) == Kept(ranked, other, k)
  {
    if k > 0 {
      assert decisions[..k][k - 1] == other[..k][k - 1];
      assert decisions[..k - 1] == decisions[..k][..k - 1] == other[..k][..k - 1] == other[..k - 1];
      KeptOfLonger(ranked, decisions, other, k - 1);
    }
  }

  /** The decisions with the one the rule asks for next. */
  ghost function Next(env: Env, entry: Entry, ranked: seq<Row>, base: seq<Row>, decisions: seq<Decision>): seq<Decision>
    requires |decisions| < |ranked|
  {
    var k := |decisions|;
    var accepted := base + Kept(ranked, decisions, k);
    decisions + [Decide(env, ranked[k], entry.stratum, k + 1, ConflictsWith(env, ranked[k], accepted))]
  }

  lemma GreedyExtends(env: Env, entry: Entry, ranked: seq<Row>, base: seq<Row>, decisions: seq<Decision>)
    requires GreedyPrefix(env, entry, ranked, base, decisions)
    requires |decisions| < |ranked| && |Kept(ranked, decisions, |decisions|)| < entry.quota
    ensures GreedyPrefix(env, entry, ranked, base, Next(env, entry, ranked, base, decisions))
  {
    var k := |decisions|;
    var more := Next(env, entry, ranked, base, decisions);
    forall j: nat | j <= k ensures Kept(ranked, more, j) == Kept(ranked, decisions, j) {
      KeptOfLonger(ranked, more, decisions, j);
    }
    RecordsMeanBlocked(env, ranked[k], base + Kept(ranked, decisions, k));
    forall j: nat | j < |more| ensures GreedyAt(env, entry, ranked, base, more, j) {
      if j < k { assert GreedyAt(env, entry, ranked, base, decisions, j); }
    }
  }

  /** The progress that the decisions made so far amount to. */
  ghost function ProgressOf(ranked: seq<Row>, base: seq<Row>, earlier: seq<Decision>,
      decisions: seq<Decision>): Progress
    requires |decisions| <= |ranked|
  {
    var kept := Kept(ranked, decisions, |decisions|);
    Progress(base + kept, earlier + decisions, |kept|, |decisions|)
  }

  lemma AdvanceIsNext(env: Env, entry: Entry, ranked: seq<Row>, base: seq<Row>, earlier: seq<Decision>,
                      decisions: seq<Decision>)
    requires |decisions| < |ranked|
    ensures Advance(env, entry, ranked[|decisions|], ProgressOf(ranked, base, earlier, decisions))
         == ProgressOf(ranked, base, earlier, Next(env, entry, ranked, base, decisions))
  {
    var k := |decisions|;
    var more := Next(env, entry, ranked, base, decisions);
    KeptOfLonger(ranked, more, decisions, k);
    assert earlier + more == earlier + decisions + [more[k]];
    assert base + Kept(ranked, more, k + 1)
        == base + Kept(ranked, decisions, k) + (if more[k].skipped then [] else [ranked[k]]);
  }

  lemma {:induction false} ScanContinues(env: Env, entry: Entry, ranked: seq<Row>, base: seq<Row>,
                                         earlier: seq<Decision>, decisions: seq<Decision>)
    returns (all: seq<Decision>)
    requires GreedyPrefix(env, entry, ranked, base, decisions)
    requires |Kept(ranked, decisions, |decisions|)| < entry.quota
    ensures Greedy(env, entry, ranked, base, all)
    ensures ScanFrom(env, entry, ranked[|decisions|..], ProgressOf(ranked, base, earlier, decisions))
         == ProgressOf(ranked, base, earlier, all)
    decreases |ranked| - |decisions|
  {
    var k := |decisions|;
    if k == |ranked| {
      all := decisions;
    } else {
      GreedyExtends(env, entry, ranked, base, decisions);
      AdvanceIsNext(env, entry, ranked, base, earlier, decisions);
      ScanFromAt(env, entry, ranked, k, ProgressOf(ranked, base, earlier, decisions));
      all := Next(env, entry, ranked, base, decisions);
      KeptGrows(ranked, decisions, all);
      if |Kept(ranked, all, k + 1)| != entry.quota {
        all := ScanContinues(env, entry, ranked, base, earlier, all);
      }
    }
  }

  lemma KeptGrows(ranked: seq<Row>, decisions: seq<Decision>, more: seq<Decision>)
    requires |more| == |decisions| + 1 <= |ranked| && more[..|decisions|] == decisions
    ensures |Kept(ranked, more, |more|)| <= |Kept(ranked, decisions, |decisions|)| + 1
  {
    KeptOfLonger(ranked, more, decisions, |decisions|);
  }

  /** The scan of one stratum follows the greedy rule from its first to its last decision. */
  lemma ScanIsGreedy(env: Env, entry: Entry, ranked: seq<Row>, base: seq<Row>, earlier: seq<Decision>)
    returns (all: seq<Decision>)
    requires entry.quota > 0
    ensures Greedy(env, entry, ranked, base, all)
    ensures ScanFrom(env, entry, ranked, Progress(base, earlier, 0, 0)) == ProgressOf(ranked, base, earlier, all)
  {
    all := ScanContinues(env, entry, ranked, base, earlier, []);
    assert ranked[0..] == ranked;
    assert earlier + [] == earlier && base + [] == base;
  }

  lemma {:induction false} GreedyAgrees(env: Env, entry: Entry, ranked: seq<Row>, base: seq<Row>,
                                        a: seq<Decision>, b: seq<Decision>, k: nat)
    requires GreedyPrefix(env, entry, ranked, base, a) && GreedyPrefix(env, entry, ranked, base, b)
    requires k <= |a| && k <= |b|
    ensures a[..k] == b[..k]
  {
    if k > 0 {
      GreedyAgrees(env, entry, ranked, base, a, b, k - 1);
      KeptOfLonger(ranked, a, b, k - 1);
      assert GreedyAt(env, entry, ranked, base, a, k - 1) && GreedyAt(env, entry, ranked, base, b, k - 1);
      assert a[..k] == a[..k - 1] + [a[k - 1]] && b[..k] == b[..k - 1] + [b[k - 1]];
    }
  }

  lemma GreedyNotShorter(env: Env, entry: Entry, ranked: seq<Row>, base: seq<Row>, a: seq<Decision>, b: seq<Decision>)
    requires Greedy(env, entry, ranked, base, a) && GreedyPrefix(env, entry, ranked, base, b)
    ensures |b| <= |a|
  {
    if |a| < |b| {
      GreedyAgrees(env, entry, ranked, base, a, b, |a|);
      KeptOfLonger(ranked, a, b, |a|);
      BelowQuotaBefore(env, entry, ranked, base, b, |a|);
    }
  }

  lemma BelowQuotaBefore(env: Env, entry: Entry, ranked: seq<Row>, base: seq<Row>, decisions: seq<Decision>, k: nat)
    requires GreedyPrefix(env, entry, ranked, base, decisions) && k < |decisions|
    ensures |Kept(ranked, decisions, k)| < entry.quota
  {
    assert GreedyAt(env, entry, ranked, base, decisions, k);
  }

  /** No other list of decisions follows the rule. */
  lemma GreedyIsUnique(env: Env, entry: Entry, ranked: seq<Row>, base: seq<Row>, a: seq<Decision>, b: seq<Decision>)
    requires Greedy(env, entry, ranked, base, a) && Greedy(env, entry, ranked, base, b)
    ensures a == b
  {
    GreedyNotShorter(env, entry, ranked, base, a, b);
    GreedyNotShorter(env, entry, ranked, base, b, a);
    GreedyAgrees(env, entry, ranked, base, a, b, |a|);
  }

  // ---- one stratum

  /** Every accepted row is free of conflicts with all rows accepted before it. */
  ghost predicate ConflictFree(env: Env, accepted: seq<Row>) {
    forall i, j | 0 <= i < j < |accepted| :: !Conflict(SimilarOf(env.score), accepted[j], accepted[i])
  }

  ghost function AcceptedCount(accepted: seq<Row>, stratum: StratumKey): nat {
    if accepted == [] then 0 else
      AcceptedCount(accepted[..|accepted| - 1], stratum) + (if KeyOf(accepted[|accepted| - 1]) == stratum then 1 else 0)
  }

  lemma CountAppend(accepted: seq<Row>, row: Row, stratum: StratumKey)
    ensures AcceptedCount(accepted + [row], stratum)
         == AcceptedCount(accepted, stratum) + (if KeyOf(row) == stratum then 1 else 0)
  {
    assert (accepted + [row])[..|accepted|] == accepted;
  }

  lemma AdvanceKeepsFree(env: Env, entry: Entry, row: Row, p: Progress)
    requires ConflictFree(env, p.accepted)
    ensures ConflictFree(env, Advance(env, entry, row, p).accepted)
  {
    RecordsMeanBlocked(env, row, p.accepted);
  }

  lemma {:induction false} ScanKeepsFree(env: Env, entry: Entry, ranked: seq<Row>, p: Progress)
    requires ConflictFree(env, p.accepted)
    ensures ConflictFree(env, ScanFrom(env, entry, ranked, p).accepted)
  {
    if ranked != [] {
      AdvanceKeepsFree(env, entry, ranked[0], p);
      ScanKeepsFree(env, entry, ranked[1..], Advance(env, entry, ranked[0], p));
    }
  }

  /** Accepted rows come from the ranked list, in addition to what was accepted before. */
  lemma {:induction false} ScanAddsRanked(env: Env, entry: Entry, ranked: seq<Row>, p: Progress)
    ensures p.accepted <= ScanFrom(env, entry, ranked, p).accepted
    ensures p.decisions <= ScanFrom(env, entry, ranked, p).decisions
    ensures forall row | row in ScanFrom(env, entry, ranked, p).accepted :: row in p.accepted || row in ranked
  {
    if ranked != [] {
      ScanAddsRanked(env, entry, ranked[1..], Advance(env, entry, ranked[0], p));
    }
  }

  /** The counter counts what is accepted, in this stratum and in no other. */
  lemma {:induction false} ScanCounts(env: Env, entry: Entry, ranked: seq<Row>, p: Progress, stratum: StratumKey)
    requires forall row | row in ranked :: KeyOf(row) == entry.stratum
    requires p.count < entry.quota
    ensures ScanFrom(env, entry, ranked, p).count <= entry.quota
    ensures AcceptedCount(ScanFrom(env, entry, ranked, p).accepted, stratum)
         == AcceptedCount(p.accepted, stratum)
            + (if stratum == entry.stratum then ScanFrom(env, entry, ranked, p).count - p.count else 0)
  {
    if ranked != [] {
      var next := Advance(env, entry, ranked[0], p);
      CountAppend(p.accepted, ranked[0], stratum);
      if next.count != entry.quota {
        ScanCounts(env, entry, ranked[1..], next, stratum);
      }
    }
  }

  lemma BlockedByMore(env: Env, row: Row, accepted: seq<Row>, more: seq<Row>)
    requires accepted <= more && Blocked(env, row, accepted)
    ensures Blocked(env, row, more)
  {
    var previous :| previous in accepted && Conflict(SimilarOf(env.score), row, previous);
    assert previous in more;
  }

  /** A stratum left below its quota has no ranked row that could still be added. */
  lemma {:induction false} ScanExhausts(env: Env, entry: Entry, ranked: seq<Row>, p: Progress)
    requires ScanFrom(env, entry, ranked, p).count < entry.quota
    ensures forall row | row in ranked ::
      var accepted := ScanFrom(env, entry, ranked, p).accepted;
      row in accepted || Blocked(env, row, accepted)
  {
    if ranked != [] {
      var next := Advance(env, entry, ranked[0], p);
      ScanExhausts(env, entry, ranked[1..], next);
      ScanAddsRanked(env, entry, ranked[1..], next);
      RecordsMeanBlocked(env, ranked[0], p.accepted);
      var accepted := ScanFrom(env, entry, ranked, p).accepted;
      if Blocked(env, ranked[0], p.accepted) {
        BlockedByMore(env, ranked[0], p.accepted, accepted);
      }
      forall row | row in ranked ensures row in accepted || Blocked(env, row, accepted) {
        if row != ranked[0] {
          assert row in ranked[1..];
        }
      }
    }
  }

  // ---- the whole run

  ghost predicate ValidEntries(entries: seq<Entry>) {
    && (forall i | 0 <= i < |entries| :: entries[i].quota > 0)
    && (forall i, j | 0 <= i < j < |entries| :: entries[i].stratum != entries[j].stratum)
  }

  /** No passing row of the stratum can be added to the accepted rows. */
  ghost predicate Saturated(env: Env, rows: seq<Row>, stratum: StratumKey, accepted: seq<Row>) {
    forall row | row in rows && row.finalPass && KeyOf(row) == stratum :: row in accepted || Blocked(env, row, accepted)
  }

  /** The record of one stratum agrees with the accepted rows. */
  ghost predicate ResultAgrees(entry: Entry, result: StratumResult, accepted: seq<Row>) {
    && result.stratum == entry.stratum && result.quota == entry.quota
    && result.accepted == AcceptedCount(accepted, entry.stratum) <= entry.quota
    && (result.status == Filled <==> result.accepted == entry.quota)
    && result.scanned == result.accepted + result.skipped
  }

  /** What holds after the first n strata. */
  ghost predicate RunInvariant(env: Env, rows: seq<Row>, entries: seq<Entry>, n: nat, run: Run)
    requires n <= |entries|
  {
    && ConflictFree(env, run.accepted)
    && (forall row | row in run.accepted :: row in rows && row.finalPass)
    && (forall k | n <= k < |entries| :: AcceptedCount(run.accepted, entries[k].stratum) == 0)
    && |run.results| == n
    && (forall k | 0 <= k < n :: ResultAgrees(entries[k], run.results[k], run.accepted))
    && (run.stopped.None? ==> forall k | 0 <= k < n :: run.results[k].status == Filled)
    && (run.stopped.Some? ==> exists k :: ShortAt(env, rows, entries, n, run, k))
  }

  /** Stratum k fell short: it is saturated, all before it are full, none after it was started. */
  ghost predicate ShortAt(env: Env, rows: seq<Row>, entries: seq<Entry>, n: nat, run: Run, k: int)
    requires n <= |entries| && |run.results| == n
  {
    && 0 <= k < n && run.stopped == Some(entries[k].stratum)
    && run.results[k].status == Shortfall && Saturated(env, rows, entries[k].stratum, run.accepted)
    && (forall j | 0 <= j < k :: run.results[j].status == Filled)
    && (forall j | k < j < n :: run.results[j].status == NotStarted && run.results[j].accepted == 0)
  }

  lemma StartedKeeps(env: Env, rows: seq<Row>, entries: seq<Entry>, n: nat, run: Run, p: Progress)
    requires ValidEntries(entries) && n < |entries|
    requires RunInvariant(env, rows, entries, n, run) && run.stopped.None?
    requires p == Started(env, rows, entries[n], run)
    ensures ConflictFree(env, p.accepted)
    ensures forall row | row in p.accepted :: row in rows && row.finalPass
    ensures p.count <= entries[n].quota && p.count == AcceptedCount(p.accepted, entries[n].stratum)
    ensures forall k | 0 <= k < |entries| && k != n ::
      AcceptedCount(p.accepted, entries[k].stratum) == AcceptedCount(run.accepted, entries[k].stratum)
    ensures p.count < entries[n].quota ==> Saturated(env, rows, entries[n].stratum, p.accepted)
  {
    var entry := entries[n];
    var ranked := RankedStratum(env, rows, entry.stratum);
    var start := Progress(run.accepted, run.decisions, 0, 0);
    forall row ensures row in ranked <==> row in rows && row.finalPass && KeyOf(row) == entry.stratum {
      RankedMembers(env, rows, entry.stratum, row);
    }
    ScanKeepsFree(env, entry, ranked, start);
    ScanAddsRanked(env, entry, ranked, start);
    forall k | 0 <= k < |entries|
      ensures AcceptedCount(p.accepted, entries[k].stratum)
           == AcceptedCount(run.accepted, entries[k].stratum) + (if k == n then p.count else 0)
    {
      ScanCounts(env, entry, ranked, start, entries[k].stratum);
    }
    ScanCounts(env, entry, ranked, start, entry.stratum);
    if p.count < entry.quota {
      ScanExhausts(env, entry, ranked, start);
    }
  }

  lemma StartedStep(env: Env, rows: seq<Row>, entries: seq<Entry>, n: nat, run: Run)
    requires ValidEntries(entries) && n < |entries|
    requires RunInvariant(env, rows, entries, n, run) && run.stopped.None?
    ensures RunInvariant(env, rows, entries, n + 1, ScanEntry(env, rows, entries[n], run))
  {
    var p := Started(env, rows, entries[n], run);
    var next := ScanEntry(env, rows, entries[n], run);
    StartedKeeps(env, rows, entries, n, run, p);
    forall k | 0 <= k < n + 1 ensures ResultAgrees(entries[k], next.results[k], next.accepted) {
      if k < n {
        assert ResultAgrees(entries[k], run.results[k], run.accepted);
      }
    }
    if p.count < entries[n].quota {
      assert ShortAt(env, rows, entries, n + 1, next, n);
    }
  }

  lemma StoppedStep(env: Env, rows: seq<Row>, entries: seq<Entry>, n: nat, run: Run)
    requires ValidEntries(entries) && n < |entries|
    requires RunInvariant(env, rows, entries, n, run) && run.stopped.Some?
    ensures RunInvariant(env, rows, entries, n + 1, ScanEntry(env, rows, entries[n], run))
  {
    var next := ScanEntry(env, rows, entries[n], run);
    var k :| ShortAt(env, rows, entries, n, run, k);
    assert ShortAt(env, rows, entries, n + 1, next, k);
    forall j | 0 <= j < n + 1 ensures ResultAgrees(entries[j], next.results[j], next.accepted) {
      if j < n {
        assert ResultAgrees(entries[j], run.results[j], run.accepted);
      }
    }
  }

  lemma {:induction false} RunKeeps(env: Env, rows: seq<Row>, entries: seq<Entry>, n: nat, run: Run)
    requires ValidEntries(entries) && n <= |entries| && RunInvariant(env, rows, entries, n, run)
    ensures RunInvariant(env, rows, entries, |entries|, ScanEntries(env, rows, entries[n..], run))
    decreases |entries| - n
  {
    if n < |entries| {
      if run.stopped.None? {
        StartedStep(env, rows, entries, n, run);
      } else {
        StoppedStep(env, rows, entries, n, run);
      }
      ScanEntriesAt(env, rows, entries, n, run);
      RunKeeps(env, rows, entries, n + 1, ScanEntry(env, rows, entries[n], run));
    }
  }

  /** The registered table satisfies what the scan needs. */
  lemma TableIsValid()
    ensures ValidEntries(STRATUM_ENTRIES) && |STRATUM_ENTRIES| == |STRATA| == |QUOTAS|
    ensures forall t | 0 <= t < |STRATA| :: STRATUM_ENTRIES[t] == Entry(STRATA[t], QUOTAS[t])
  {
    assert forall i, j | 0 <= i < j < |STRATA| :: STRATA[i] != STRATA[j];
  }

  /** Accepted rows are pairwise free of conflicts, within quota, all of them passing rows; a
      run that stops leaves nothing addable in the stratum it stopped at, and starts no later one. */
  lemma ScanIsSafe(env: Env, rows: seq<Row>)
    ensures RunInvariant(env, rows, STRATUM_ENTRIES, |STRATUM_ENTRIES|, ScanRun(env, rows))
  {
    TableIsValid();
    assert STRATUM_ENTRIES[0..] == STRATUM_ENTRIES;
    RunKeeps(env, rows, STRATUM_ENTRIES, 0, FRESH);
  }

  // ---- the order of the ledger does not matter

  lemma {:induction false} EntriesIgnoreOrder(env: Env, rows: seq<Row>, other: seq<Row>, entries: seq<Entry>, run: Run)
    requires multiset(rows) == multiset(other) && UniqueIds(rows)
    ensures ScanEntries(env, rows, entries, run) == ScanEntries(env, other, entries, run)
  {
    if entries != [] {
      RankingIgnoresOrder(env, rows, other, entries[0].stratum);
      EntriesIgnoreOrder(env, rows, other, entries[1..], ScanEntry(env, rows, entries[0], run));
    }
  }

  /** Every permutation of a ledger with unique ids is scanned to the same result. */
  lemma ScanIgnoresOrder(env: Env, rows: seq<Row>, other: seq<Row>)
    requires multiset(rows) == multiset(other) && UniqueIds(rows)
    ensures ScanRun(env, rows) == ScanRun(env, other)
  {
    EntriesIgnoreOrder(env, rows, other, STRATUM_ENTRIES, FRESH);
  }
}
