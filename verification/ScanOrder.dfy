/** What the decisions of a whole run mean, in terms of the rows, their digests and their conflicts alone. */
module ScanOrder {
  import opened Results
  import opened Similarity
  import opened SimilarityMeaning
  import opened Ledger
  import opened Selection
  import opened GreedyScan
  import opened ScanGuarantees

  /** The decision was made about this passing row. */
  ghost predicate About(env: Env, rows: seq<Row>, row: Row, d: Decision) {
    && row in rows && row.finalPass
    && d.identity == Identity(row.source, row.candId) && d.stratum == (row.source, row.stratum)
    && d.rank == env.digest(d.stratum, row.source, row.candId)
  }

  /** The j-th decision took a row that stands in the way of the i-th. */
  ghost predicate Prevents(env: Env, scanned: seq<Row>, decisions: seq<Decision>, i: nat, j: nat)
    requires j < i < |scanned| == |decisions|
  {
    !decisions[j].skipped && Conflict(SimilarOf(env.score), scanned[i], scanned[j])
  }

  /** A row is skipped exactly when one taken earlier is in conflict with it. */
  ghost predicate SkippedRightly(env: Env, scanned: seq<Row>, decisions: seq<Decision>, i: nat)
    requires i < |scanned| == |decisions|
  {
    decisions[i].skipped <==> exists j: nat :: j < i && Prevents(env, scanned, decisions, i, j)
  }

  /** The records name each row in the way: by group, and by similarity with its score. */
  ghost predicate RecordedRightly(env: Env, scanned: seq<Row>, decisions: seq<Decision>, i: nat)
    requires i < |scanned| == |decisions|
  {
    Names(env, scanned[i], Kept(scanned, decisions, i), decisions[i].conflicts)
  }

  /** What the i-th decision says is true. */
  ghost predicate Explained(env: Env, rows: seq<Row>, scanned: seq<Row>, decisions: seq<Decision>, i: nat)
    requires i < |scanned| == |decisions|
  {
    && About(env, rows, scanned[i], decisions[i])
    && SkippedRightly(env, scanned, decisions, i) && RecordedRightly(env, scanned, decisions, i)
  }

  ghost predicate Names(env: Env, row: Row, accepted: seq<Row>, records: seq<ConflictRecord>) {
    && (forall id :: NativeGroupConflict(id) in records <==> exists other :: NamedByGroup(row, accepted, other, id))
    && (forall id, score :: DirectSimilarityConflict(id, score) in records <==>
          exists other :: NamedBySimilarity(env, row, accepted, other, id, score))
  }

  ghost predicate NamedByGroup(row: Row, accepted: seq<Row>, other: Row, id: Identity) {
    && other in accepted && id == Identity(other.source, other.candId)
    && row.source == other.source && row.group == other.group
  }

  ghost predicate NamedBySimilarity(env: Env, row: Row, accepted: seq<Row>, other: Row, id: Identity, score: Score) {
    && other in accepted && id == Identity(other.source, other.candId)
    && score == env.score(row, other) && ReachesNinety(score.dot, score.left * score.right)
  }

  lemma {:induction false} RecordsName(env: Env, row: Row, accepted: seq<Row>)
    ensures Names(env, row, accepted, ConflictsWith(env, row, accepted))
  {
    if accepted != [] {
      var init, last := accepted[..|accepted| - 1], accepted[|accepted| - 1];
      assert accepted == init + [last];
      RecordsName(env, row, init);
      OneRecordNames(env, row, last);
      var before, more := ConflictsWith(env, row, init), ConflictsOf(env, row, last);
      NamesMore(env, row, init, last, before, more);
    }
  }

  lemma OneRecordNames(env: Env, row: Row, last: Row)
    ensures Names(env, row, [last], ConflictsOf(env, row, last))
  {
    ReachesIsNinety(env.score(row, last));
    var records := ConflictsOf(env, row, last);
    forall id
      ensures NativeGroupConflict(id) in records <==> exists other :: NamedByGroup(row, [last], other, id)
    {
      assert NamedByGroup(row, [last], last, IdentityOf(last)) <==> NativeConflict(row, last);
    }
    forall id, score
      ensures DirectSimilarityConflict(id, score) in records <==>
        exists other :: NamedBySimilarity(env, row, [last], other, id, score)
    {
      assert NamedBySimilarity(env, row, [last], last, IdentityOf(last), env.score(row, last))
        <==> Reaches(env.score(row, last));
    }
  }

  lemma NamesMore(env: Env, row: Row, init: seq<Row>, last: Row, before: seq<ConflictRecord>,
                  more: seq<ConflictRecord>)
    requires Names(env, row, init, before) && Names(env, row, [last], more)
    ensures Names(env, row, init + [last], before + more)
  {
    var all := init + [last];
    forall id
      ensures NativeGroupConflict(id) in before + more <==> exists other :: NamedByGroup(row, all, other, id)
    {
      assert forall other :: NamedByGroup(row, all, other, id) <==>
        NamedByGroup(row, init, other, id) || NamedByGroup(row, [last], other, id);
    }
    forall id, score
      ensures DirectSimilarityConflict(id, score) in before + more <==>
        exists other :: NamedBySimilarity(env, row, all, other, id, score)
    {
      assert forall other :: NamedBySimilarity(env, row, all, other, id, score) <==>
        NamedBySimilarity(env, row, init, other, id, score) || NamedBySimilarity(env, row, [last], other, id, score);
    }
  }

  // ---- the order of a run

  /** The stratum of one decision stands in the table no later than that of another. */
  ghost predicate InTableOrder(entries: seq<Entry>, first: Decision, second: Decision) {
    forall a: nat, b: nat | a < |entries| && b < |entries| ::
      entries[a].stratum == first.stratum && entries[b].stratum == second.stratum ==> a <= b
  }

  /** The decisions of each stratum are numbered from one. */
  ghost predicate IndexedRightly(decisions: seq<Decision>, i: nat)
    requires i < |decisions|
  {
    decisions[i].scanIndex ==
      if i > 0 && decisions[i - 1].stratum == decisions[i].stratum then decisions[i - 1].scanIndex + 1 else 1
  }

  /** A row of the stratum that was not scanned comes after every one that was. */
  ghost predicate LeftBehind(env: Env, scanned: seq<Row>, d: Decision, row: Row, i: nat)
    requires i < |scanned|
  {
    KeyOf(row) == d.stratum && row !in scanned ==> DigestsAscend(env, scanned[i], row)
  }

  /** The run goes through the table in order and through each stratum by ascending digest; a row is skipped exactly
      when it is in conflict with one taken earlier, whose records say so; and the rows taken are those accepted. */
  ghost predicate RankGuided(env: Env, rows: seq<Row>, entries: seq<Entry>, run: Run, scanned: seq<Row>) {
    && AllExplained(env, rows, scanned, run.decisions) && InOrder(env, rows, entries, scanned, run.decisions)
    && run.accepted == Kept(scanned, run.decisions, |scanned|)
  }

  ghost predicate AllExplained(env: Env, rows: seq<Row>, scanned: seq<Row>, decisions: seq<Decision>) {
    |scanned| == |decisions| && forall i: nat | i < |scanned| :: Explained(env, rows, scanned, decisions, i)
  }

  ghost predicate InOrder(env: Env, rows: seq<Row>, entries: seq<Entry>, scanned: seq<Row>, decisions: seq<Decision>)
    requires |scanned| == |decisions|
  {
    && AllIndexed(decisions)
    && (forall i: nat, j: nat | i < j < |scanned| :: PairInOrder(env, entries, scanned, decisions, i, j))
    && (forall i: nat, row | i < |scanned| && row in rows && row.finalPass ::
          LeftBehind(env, scanned, decisions[i], row, i))
  }

  ghost predicate PairInOrder(env: Env, entries: seq<Entry>, scanned: seq<Row>, decisions: seq<Decision>,
                              i: nat, j: nat)
    requires i < j < |scanned| == |decisions|
  {
    && InTableOrder(entries, decisions[i], decisions[j])
    && (decisions[i].stratum == decisions[j].stratum ==> DigestsAscend(env, scanned[i], scanned[j]))
  }

  ghost predicate AllIndexed(decisions: seq<Decision>) {
    forall i: nat | i < |decisions| :: IndexedRightly(decisions, i)
  }

  lemma {:induction false} KeptOfPrefix(scanned: seq<Row>, decisions: seq<Decision>, more: seq<Row>,
                                        others: seq<Decision>, k: nat)
    requires k <= |scanned| && k <= |decisions| && k <= |more| && k <= |others|
    requires scanned[..k] == more[..k] && decisions[..k] == others[..k]
    ensures Kept(scanned, decisions, k) == Kept(more, others, k)
  {
    if k > 0 {
      assert scanned[..k][k - 1] == more[..k][k - 1] && decisions[..k][k - 1] == others[..k][k - 1];
      assert scanned[..k - 1] == scanned[..k][..k - 1] && more[..k - 1] == more[..k][..k - 1];
      assert decisions[..k - 1] == decisions[..k][..k - 1] && others[..k - 1] == others[..k][..k - 1];
      KeptOfPrefix(scanned, decisions, more, others, k - 1);
    }
  }

  lemma {:induction false} KeptJoins(scanned: seq<Row>, decisions: seq<Decision>, ranked: seq<Row>,
                                     all: seq<Decision>, k: nat)
    requires |scanned| == |decisions| && k <= |all| <= |ranked|
    ensures Kept(scanned + ranked[..|all|], decisions + all, |scanned| + k)
         == Kept(scanned, decisions, |scanned|) + Kept(ranked, all, k)
  {
    var more, others := scanned + ranked[..|all|], decisions + all;
    if k == 0 {
      assert more[..|scanned|] == scanned[..|scanned|] && others[..|scanned|] == decisions[..|scanned|];
      KeptOfPrefix(scanned, decisions, more, others, |scanned|);
    } else {
      KeptJoins(scanned, decisions, ranked, all, k - 1);
      assert more[|scanned| + k - 1] == ranked[k - 1] && others[|scanned| + k - 1] == all[k - 1];
    }
  }

  lemma {:induction false} KeptMembers(scanned: seq<Row>, decisions: seq<Decision>, k: nat, row: Row)
    requires k <= |scanned| && k <= |decisions|
    ensures row in Kept(scanned, decisions, k) <==>
      exists j: nat :: j < k && !decisions[j].skipped && scanned[j] == row
  {
    if k > 0 {
      KeptMembers(scanned, decisions, k - 1, row);
      if row == scanned[k - 1] && !decisions[k - 1].skipped {
        assert k - 1 < k && !decisions[k - 1].skipped && scanned[k - 1] == row;
      }
    }
  }

  /** Being in the way of a row is being in conflict with one of the rows kept so far. */
  lemma BlockedIsPrevented(env: Env, scanned: seq<Row>, decisions: seq<Decision>, i: nat)
    requires i < |scanned| == |decisions|
    ensures Blocked(env, scanned[i], Kept(scanned, decisions, i)) <==>
      exists j: nat :: j < i && Prevents(env, scanned, decisions, i, j)
  {
    var kept := Kept(scanned, decisions, i);
    if previous :| previous in kept && Conflict(SimilarOf(env.score), scanned[i], previous) {
      KeptMembers(scanned, decisions, i, previous);
      var j: nat :| j < i && !decisions[j].skipped && scanned[j] == previous;
      assert Prevents(env, scanned, decisions, i, j);
    }
    if j: nat :| j < i && Prevents(env, scanned, decisions, i, j) {
      KeptMembers(scanned, decisions, i, scanned[j]);
    }
  }

  // ---- one more stratum

  /** Every decision made so far is about one of the first n strata. */
  ghost predicate OfFirst(entries: seq<Entry>, n: nat, decisions: seq<Decision>)
    requires n <= |entries|
  {
    forall i: nat | i < |decisions| :: OneOf(entries, n, decisions[i].stratum)
  }

  ghost predicate OneOf(entries: seq<Entry>, n: nat, stratum: StratumKey)
    requires n <= |entries|
  {
    exists a: nat :: a < n && entries[a].stratum == stratum
  }

  /** The i-th decision belongs to a stratum whose decisions begin at a given place. */
  ghost predicate Numbered(decisions: seq<Decision>, entry: Entry, start: nat, i: nat)
    requires start <= i < |decisions|
  {
    decisions[i].stratum == entry.stratum && decisions[i].scanIndex == i - start + 1
  }

  /** A decision that the greedy rule makes, seen from the whole run. */
  lemma JoinedAt(scanned: seq<Row>, decisions: seq<Decision>, ranked: seq<Row>, all: seq<Decision>, more: seq<Row>,
                 others: seq<Decision>, k: nat, i: nat)
    requires k < |all| <= |ranked| && |scanned| == |decisions|
    requires more == scanned + ranked[..|all|] && others == decisions + all && i == |scanned| + k
    ensures i < |more| == |others| && more[i] == ranked[k] && others[i] == all[k]
    ensures Kept(more, others, i) == Kept(scanned, decisions, |scanned|) + Kept(ranked, all, k)
  {
    KeptJoins(scanned, decisions, ranked, all, k);
  }

  lemma RankedIsExplained(env: Env, rows: seq<Row>, stratum: StratumKey, row: Row, scanned: seq<Row>,
                          decisions: seq<Decision>, i: nat, index: nat)
    requires row in RankedStratum(env, rows, stratum) && i < |scanned| == |decisions| && scanned[i] == row
    requires decisions[i] == Decide(env, row, stratum, index, ConflictsWith(env, row, Kept(scanned, decisions, i)))
    ensures Explained(env, rows, scanned, decisions, i)
  {
    RankedMembers(env, rows, stratum, row);
    DecidedIsExplained(env, rows, scanned, decisions, i, stratum, index, Kept(scanned, decisions, i));
  }

  lemma DecidedIsExplained(env: Env, rows: seq<Row>, scanned: seq<Row>, decisions: seq<Decision>, i: nat,
                           stratum: StratumKey, index: nat, accepted: seq<Row>)
    requires i < |scanned| == |decisions| && accepted == Kept(scanned, decisions, i)
    requires scanned[i] in rows && scanned[i].finalPass && KeyOf(scanned[i]) == stratum
    requires decisions[i] == Decide(env, scanned[i], stratum, index, ConflictsWith(env, scanned[i], accepted))
    ensures Explained(env, rows, scanned, decisions, i)
  {
    BlockedIsPrevented(env, scanned, decisions, i);
    RecordsMeanBlocked(env, scanned[i], accepted);
    RecordsName(env, scanned[i], accepted);
  }

  /** A decision made earlier stays as it was. */
  lemma OldDecision(env: Env, rows: seq<Row>, scanned: seq<Row>, decisions: seq<Decision>, more: seq<Row>,
                    others: seq<Decision>, i: nat)
    requires i < |scanned| == |decisions| && |more| == |others| && scanned <= more && decisions <= others
    ensures Explained(env, rows, scanned, decisions, i) ==> Explained(env, rows, more, others, i)
  {
    assert scanned[..i] == more[..i] && decisions[..i] == others[..i];
    KeptOfPrefix(scanned, decisions, more, others, i);
    BlockedIsPrevented(env, scanned, decisions, i);
    BlockedIsPrevented(env, more, others, i);
  }

  lemma ScannedInOrder(env: Env, rows: seq<Row>, stratum: StratumKey, m: nat, k: nat, row: Row)
    requires k < m <= |RankedStratum(env, rows, stratum)|
    requires row in rows && row.finalPass && KeyOf(row) == stratum
    requires row !in RankedStratum(env, rows, stratum)[..m]
    ensures DigestsAscend(env, RankedStratum(env, rows, stratum)[k], row)
  {
    var ranked := RankedStratum(env, rows, stratum);
    RankedMembers(env, rows, stratum, row);
    assert ranked == ranked[..m] + ranked[m..];
    var j: nat :| j < |ranked[m..]| && ranked[m..][j] == row;
    RankedByDigest(env, rows, stratum, k, m + j);
  }

  lemma StratumIsGuided(env: Env, rows: seq<Row>, entries: seq<Entry>, n: nat, run: Run, scanned: seq<Row>)
    returns (more: seq<Row>)
    requires ValidEntries(entries) && n < |entries| && run.stopped.None?
    requires RankGuided(env, rows, entries, run, scanned) && OfFirst(entries, n, run.decisions)
    ensures RankGuided(env, rows, entries, ScanEntry(env, rows, entries[n], run), more)
    ensures OfFirst(entries, n + 1, ScanEntry(env, rows, entries[n], run).decisions)
  {
    var ranked := RankedStratum(env, rows, entries[n].stratum);
    var all := ScanIsGreedy(env, entries[n], ranked, run.accepted, run.decisions);
    more := scanned + ranked[..|all|];
    NextAmountsTo(env, rows, entries[n], run, ranked, all);
    NextIsGuided(env, rows, entries, n, run, scanned, ranked, all, more, ScanEntry(env, rows, entries[n], run));
  }

  lemma NextIsGuided(env: Env, rows: seq<Row>, entries: seq<Entry>, n: nat, run: Run, scanned: seq<Row>,
                     ranked: seq<Row>, all: seq<Decision>, more: seq<Row>, next: Run)
    requires ValidEntries(entries) && n < |entries| && OfFirst(entries, n, run.decisions)
    requires Extends(env, rows, entries, n, run, scanned, ranked, all, more, next.decisions)
    requires RankGuided(env, rows, entries, run, scanned) && GreedyPrefix(env, entries[n], ranked, run.accepted, all)
    requires next.accepted == run.accepted + Kept(ranked, all, |all|)
    ensures RankGuided(env, rows, entries, next, more) && OfFirst(entries, n + 1, next.decisions)
  {
    KeptJoins(scanned, run.decisions, ranked, all, |all|);
    DecisionsGuided(env, rows, entries, n, run, scanned, ranked, all, more, next.decisions);
    OrderGuided(env, rows, entries, n, run, scanned, ranked, all, more, next.decisions);
  }

  lemma NextAmountsTo(env: Env, rows: seq<Row>, entry: Entry, run: Run, ranked: seq<Row>, all: seq<Decision>)
    requires run.stopped.None? && ranked == RankedStratum(env, rows, entry.stratum) && |all| <= |ranked|
    requires ScanFrom(env, entry, ranked, Progress(run.accepted, run.decisions, 0, 0))
          == ProgressOf(ranked, run.accepted, run.decisions, all)
    ensures ScanEntry(env, rows, entry, run).decisions == run.decisions + all
    ensures ScanEntry(env, rows, entry, run).accepted == run.accepted + Kept(ranked, all, |all|)
  {}

  ghost predicate Extends(env: Env, rows: seq<Row>, entries: seq<Entry>, n: nat, run: Run, scanned: seq<Row>,
                          ranked: seq<Row>, all: seq<Decision>, more: seq<Row>, others: seq<Decision>)
  {
    && n < |entries| && ranked == RankedStratum(env, rows, entries[n].stratum)
    && |scanned| == |run.decisions| && run.accepted == Kept(scanned, run.decisions, |scanned|)
    && |all| <= |ranked|
    && more == scanned + ranked[..|all|] && others == run.decisions + all
  }

  lemma DecisionsGuided(env: Env, rows: seq<Row>, entries: seq<Entry>, n: nat, run: Run, scanned: seq<Row>,
                        ranked: seq<Row>, all: seq<Decision>, more: seq<Row>, others: seq<Decision>)
    requires Extends(env, rows, entries, n, run, scanned, ranked, all, more, others)
    requires AllExplained(env, rows, scanned, run.decisions)
    requires GreedyPrefix(env, entries[n], ranked, run.accepted, all)
    ensures AllExplained(env, rows, more, others)
    ensures forall i: nat | |scanned| <= i < |more| :: Numbered(others, entries[n], |scanned|, i)
  {
    forall i: nat | i < |more|
      ensures Explained(env, rows, more, others, i)
      ensures i >= |scanned| ==> Numbered(others, entries[n], |scanned|, i)
    {
      if i < |scanned| {
        assert Explained(env, rows, scanned, run.decisions, i);
        OldDecision(env, rows, scanned, run.decisions, more, others, i);
      } else {
        assert GreedyAt(env, entries[n], ranked, run.accepted, all, i - |scanned|);
        NewGuided(env, rows, entries, n, run, scanned, ranked, all, more, others, i, i - |scanned|);
      }
    }
  }

  lemma NewGuided(env: Env, rows: seq<Row>, entries: seq<Entry>, n: nat, run: Run, scanned: seq<Row>,
                  ranked: seq<Row>, all: seq<Decision>, more: seq<Row>, others: seq<Decision>, i: nat, k: nat)
    requires Extends(env, rows, entries, n, run, scanned, ranked, all, more, others)
    requires k < |all| && i == |scanned| + k && GreedyAt(env, entries[n], ranked, run.accepted, all, k)
    ensures i < |more| == |others| && Explained(env, rows, more, others, i)
    ensures Numbered(others, entries[n], |scanned|, i)
  {
    JoinedAt(scanned, run.decisions, ranked, all, more, others, k, i);
    RankedIsExplained(env, rows, entries[n].stratum, more[i], more, others, i, k + 1);
  }

  lemma OrderGuided(env: Env, rows: seq<Row>, entries: seq<Entry>, n: nat, run: Run, scanned: seq<Row>,
                    ranked: seq<Row>, all: seq<Decision>, more: seq<Row>, others: seq<Decision>)
    requires Extends(env, rows, entries, n, run, scanned, ranked, all, more, others) && |more| == |others|
    requires InOrder(env, rows, entries, scanned, run.decisions)
    requires ValidEntries(entries) && OfFirst(entries, n, run.decisions)
    requires forall i: nat | |scanned| <= i < |more| :: Numbered(others, entries[n], |scanned|, i)
    ensures OfFirst(entries, n + 1, others)
    ensures InOrder(env, rows, entries, more, others)
  {
    AllNumbered(env, rows, entries, n, run, scanned, ranked, all, more, others);
    forall i: nat, j: nat | i < j < |more| ensures PairInOrder(env, entries, more, others, i, j) {
      PairGuided(env, rows, entries, n, run, scanned, ranked, all, more, others, i, j);
    }
    forall i: nat, row | i < |more| && row in rows && row.finalPass ensures LeftBehind(env, more, others[i], row, i) {
      LeftGuided(env, rows, entries, n, run, scanned, ranked, all, more, others, i, row);
    }
  }

  lemma AllNumbered(env: Env, rows: seq<Row>, entries: seq<Entry>, n: nat, run: Run, scanned: seq<Row>,
                    ranked: seq<Row>, all: seq<Decision>, more: seq<Row>, others: seq<Decision>)
    requires Extends(env, rows, entries, n, run, scanned, ranked, all, more, others) && |more| == |others|
    requires InOrder(env, rows, entries, scanned, run.decisions)
    requires ValidEntries(entries) && OfFirst(entries, n, run.decisions)
    requires forall i: nat | |scanned| <= i < |more| :: Numbered(others, entries[n], |scanned|, i)
    ensures OfFirst(entries, n + 1, others) && AllIndexed(others)
  {
    forall i: nat | i < |more| ensures OneOf(entries, n + 1, others[i].stratum) && IndexedRightly(others, i) {
      NumberingGuided(env, rows, entries, n, run, scanned, ranked, all, more, others, i);
    }
  }

  lemma LeftGuided(env: Env, rows: seq<Row>, entries: seq<Entry>, n: nat, run: Run, scanned: seq<Row>,
                   ranked: seq<Row>, all: seq<Decision>, more: seq<Row>, others: seq<Decision>, i: nat, row: Row)
    requires Extends(env, rows, entries, n, run, scanned, ranked, all, more, others) && i < |more| == |others|
    requires row in rows && row.finalPass && InOrder(env, rows, entries, scanned, run.decisions)
    requires forall i: nat | |scanned| <= i < |more| :: Numbered(others, entries[n], |scanned|, i)
    ensures LeftBehind(env, more, others[i], row, i)
  {
    if KeyOf(row) == others[i].stratum && row !in more {
      if i < |scanned| {
        assert LeftBehind(env, scanned, run.decisions[i], row, i);
      } else {
        assert Numbered(others, entries[n], |scanned|, i);
        ScannedInOrder(env, rows, entries[n].stratum, |all|, i - |scanned|, row);
      }
    }
  }

  lemma NumberingGuided(env: Env, rows: seq<Row>, entries: seq<Entry>, n: nat, run: Run, scanned: seq<Row>,
                        ranked: seq<Row>, all: seq<Decision>, more: seq<Row>, others: seq<Decision>, i: nat)
    requires Extends(env, rows, entries, n, run, scanned, ranked, all, more, others) && i < |more| == |others|
    requires InOrder(env, rows, entries, scanned, run.decisions)
    requires ValidEntries(entries) && OfFirst(entries, n, run.decisions)
    requires forall i: nat | |scanned| <= i < |more| :: Numbered(others, entries[n], |scanned|, i)
    ensures OneOf(entries, n + 1, others[i].stratum)
    ensures IndexedRightly(others, i)
  {
    if i < |scanned| {
      assert others[i] == run.decisions[i] && IndexedRightly(run.decisions, i);
      assert OneOf(entries, n, run.decisions[i].stratum);
      assert i > 0 ==> others[i - 1] == run.decisions[i - 1];
    } else {
      assert Numbered(others, entries[n], |scanned|, i) && entries[n].stratum == others[i].stratum;
      if i == |scanned| {
        assert i > 0 ==> others[i - 1] == run.decisions[i - 1];
      } else {
        assert Numbered(others, entries[n], |scanned|, i - 1);
      }
    }
  }

  lemma PairGuided(env: Env, rows: seq<Row>, entries: seq<Entry>, n: nat, run: Run, scanned: seq<Row>,
                   ranked: seq<Row>, all: seq<Decision>, more: seq<Row>, others: seq<Decision>, i: nat, j: nat)
    requires Extends(env, rows, entries, n, run, scanned, ranked, all, more, others) && i < j < |more| == |others|
    requires InOrder(env, rows, entries, scanned, run.decisions)
    requires ValidEntries(entries) && OfFirst(entries, n, run.decisions)
    requires forall i: nat | |scanned| <= i < |more| :: Numbered(others, entries[n], |scanned|, i)
    ensures PairInOrder(env, entries, more, others, i, j)
  {
    if j < |scanned| {
      assert PairInOrder(env, entries, scanned, run.decisions, i, j);
      assert others[i] == run.decisions[i] && others[j] == run.decisions[j];
    } else if i < |scanned| {
      assert others[i] == run.decisions[i] && Numbered(others, entries[n], |scanned|, j);
      assert OneOf(entries, n, run.decisions[i].stratum);
      var a: nat :| a < n && entries[a].stratum == run.decisions[i].stratum;
    } else {
      assert Numbered(others, entries[n], |scanned|, i) && Numbered(others, entries[n], |scanned|, j);
      RankedByDigest(env, rows, entries[n].stratum, i - |scanned|, j - |scanned|);
    }
  }

  lemma {:induction false} EntriesAreGuided(env: Env, rows: seq<Row>, entries: seq<Entry>, n: nat, run: Run,
                                            scanned: seq<Row>)
    returns (more: seq<Row>)
    requires ValidEntries(entries) && n <= |entries|
    requires RankGuided(env, rows, entries, run, scanned) && OfFirst(entries, n, run.decisions)
    ensures RankGuided(env, rows, entries, ScanEntries(env, rows, entries[n..], run), more)
    decreases |entries| - n
  {
    more := scanned;
    if n < |entries| {
      if run.stopped.None? {
        more := StratumIsGuided(env, rows, entries, n, run, scanned);
      }
      ScanEntriesAt(env, rows, entries, n, run);
      more := EntriesAreGuided(env, rows, entries, n + 1, ScanEntry(env, rows, entries[n], run), more);
    }
  }

  /** The whole run is guided by the digests: some list of scanned rows explains every decision. */
  lemma ScanIsRankGuided(env: Env, rows: seq<Row>) returns (scanned: seq<Row>)
    ensures RankGuided(env, rows, STRATUM_ENTRIES, ScanRun(env, rows), scanned)
  {
    TableIsValid();
    assert STRATUM_ENTRIES[0..] == STRATUM_ENTRIES;
    scanned := EntriesAreGuided(env, rows, STRATUM_ENTRIES, 0, FRESH, []);
  }

  lemma GuidedGivesWay(env: Env, rows: seq<Row>, entries: seq<Entry>, run: Run, scanned: seq<Row>, i: nat)
    requires RankGuided(env, rows, entries, run, scanned) && i < |scanned| && run.decisions[i].skipped
    ensures exists row, other :: GivesWay(env, entries, run, i, row, other)
  {
    assert Explained(env, rows, scanned, run.decisions, i);
    var j: nat :| j < i && Prevents(env, scanned, run.decisions, i, j);
    assert Explained(env, rows, scanned, run.decisions, j);
    KeptMembers(scanned, run.decisions, |scanned|, scanned[j]);
    assert PairInOrder(env, entries, scanned, run.decisions, j, i);
    assert GivesWay(env, entries, run, i, scanned[i], scanned[j]);
  }

  lemma GuidedRanksAscend(env: Env, rows: seq<Row>, entries: seq<Entry>, run: Run, scanned: seq<Row>, i: nat, j: nat)
    requires RankGuided(env, rows, entries, run, scanned) && i < j < |scanned|
    requires run.decisions[i].stratum == run.decisions[j].stratum
    ensures run.decisions[i].rank <= run.decisions[j].rank
  {
    assert Explained(env, rows, scanned, run.decisions, i) && Explained(env, rows, scanned, run.decisions, j);
    assert PairInOrder(env, entries, scanned, run.decisions, i, j);
  }

  /** Within a stratum the ranks of the decisions ascend. */
  lemma RanksAscend(env: Env, rows: seq<Row>, i: nat, j: nat)
    requires i < j < |ScanRun(env, rows).decisions|
    requires ScanRun(env, rows).decisions[i].stratum == ScanRun(env, rows).decisions[j].stratum
    ensures ScanRun(env, rows).decisions[i].rank <= ScanRun(env, rows).decisions[j].rank
  {
    var scanned := ScanIsRankGuided(env, rows);
    GuidedRanksAscend(env, rows, STRATUM_ENTRIES, ScanRun(env, rows), scanned, i, j);
  }

  /** Whatever is skipped gave way to an accepted row of an earlier stratum, or of its own with no larger rank. */
  lemma SkippedGivesWay(env: Env, rows: seq<Row>, i: nat)
    requires i < |ScanRun(env, rows).decisions| && ScanRun(env, rows).decisions[i].skipped
    ensures exists row, other :: GivesWay(env, STRATUM_ENTRIES, ScanRun(env, rows), i, row, other)
  {
    var scanned := ScanIsRankGuided(env, rows);
    GuidedGivesWay(env, rows, STRATUM_ENTRIES, ScanRun(env, rows), scanned, i);
  }

  ghost predicate GivesWay(env: Env, entries: seq<Entry>, run: Run, i: nat, row: Row, other: Row)
    requires i < |run.decisions|
  {
    && run.decisions[i].identity == Identity(row.source, row.candId) && run.decisions[i].stratum == KeyOf(row)
    && other in run.accepted && Conflict(SimilarOf(env.score), row, other)
    && (KeyOf(other) == KeyOf(row) ==>
          env.digest(KeyOf(other), other.source, other.candId) <= run.decisions[i].rank)
    && (forall a: nat, b: nat | a < |entries| && b < |entries| ::
          entries[a].stratum == KeyOf(other) && entries[b].stratum == KeyOf(row) ==> a <= b)
  }
}
