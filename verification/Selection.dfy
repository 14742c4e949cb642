/** The greedy selector: rank order, one scan per stratum, and the replay of its receipt. */
module Selection {
  import opened Orders
  import opened Ledger

  /** A registered stratum with its quota; the display label is identified with the pair. */
  datatype Entry = Entry(stratum: StratumKey, quota: nat)

  const STRATUM_ENTRIES: seq<Entry> := [
    Entry(STRATA[0], 4), Entry(STRATA[1], 4), Entry(STRATA[2], 4),
    Entry(STRATA[3], 6), Entry(STRATA[4], 4), Entry(STRATA[5], 2)]

  const SEED := 20261001

  /** The digest of (stratum, source, candidate id), read as a 256-bit number. */
  type Digest = (StratumKey, string, string) -> nat

  datatype Env = Env(score: Scorer, digest: Digest)

  // ---- ranking

  datatype RankKey = RankKey(digest: nat, candId: string, source: string)

  function RankingKey(env: Env, row: Row): RankKey {
    RankKey(env.digest(KeyOf(row), row.source, row.candId), row.candId, row.source)
  }

  predicate KeyLE(a: RankKey, b: RankKey) {
    || a.digest < b.digest
    || (a.digest == b.digest && a.candId != b.candId && LexLE(a.candId, b.candId))
    || (a.digest == b.digest && a.candId == b.candId && LexLE(a.source, b.source))
  }

  predicate Before(env: Env, a: Row, b: Row) { KeyLE(RankingKey(env, a), RankingKey(env, b)) }

  lemma BeforeTotal(env: Env, a: Row, b: Row)
    ensures Before(env, a, b) || Before(env, b, a)
  {
    LexTotal(a.candId, b.candId);
    LexTotal(a.source, b.source);
  }

  lemma BeforeTransitive(env: Env, a: Row, b: Row, c: Row)
    requires Before(env, a, b) && Before(env, b, c)
    ensures Before(env, a, c)
  {
    if LexLE(a.candId, b.candId) && LexLE(b.candId, c.candId) {
      LexTransitive(a.candId, b.candId, c.candId);
      if a.candId == c.candId { LexAntisymmetric(a.candId, b.candId); }
    }
    if LexLE(a.source, b.source) && LexLE(b.source, c.source) {
      LexTransitive(a.source, b.source, c.source);
    }
  }

  lemma BeforeAntisymmetric(env: Env, a: Row, b: Row)
    requires Before(env, a, b) && Before(env, b, a)
    ensures a.candId == b.candId
  {
    if a.candId != b.candId { LexAntisymmetric(a.candId, b.candId); }
  }

  function Eligible(rows: seq<Row>, stratum: StratumKey): seq<Row> {
    if rows == [] then [] else
      (if rows[0].finalPass && KeyOf(rows[0]) == stratum then [rows[0]] else []) + Eligible(rows[1..], stratum)
  }

  function Insert(env: Env, row: Row, sorted: seq<Row>): seq<Row> {
    if sorted == [] || Before(env, row, sorted[0]) then [row] + sorted
    else [sorted[0]] + Insert(env, row, sorted[1..])
  }

  /** The stable sort by ranking key. */
  function Sort(env: Env, rows: seq<Row>): seq<Row> {
    if rows == [] then [] else Insert(env, rows[0], Sort(env, rows[1..]))
  }

  function RankedStratum(env: Env, rows: seq<Row>, stratum: StratumKey): seq<Row> {
    Sort(env, Eligible(rows, stratum))
  }

  ghost predicate Ordered(env: Env, s: seq<Row>) {
    forall i, j | 0 <= i < j < |s| :: Before(env, s[i], s[j])
  }

  lemma {:induction false} InsertSorts(env: Env, row: Row, sorted: seq<Row>)
    requires Ordered(env, sorted)
    ensures Ordered(env, Insert(env, row, sorted))
    ensures multiset(Insert(env, row, sorted)) == multiset{row} + multiset(sorted)
  {
    if sorted == [] {
    } else if Before(env, row, sorted[0]) {
      forall j | 0 <= j < |sorted| ensures Before(env, row, sorted[j]) {
        if j > 0 { BeforeTransitive(env, row, sorted[0], sorted[j]); }
      }
    } else {
      var first, rest := sorted[0], sorted[1..];
      assert sorted == [first] + rest;
      InsertSorts(env, row, rest);
      BeforeTotal(env, row, first);
      var tail := Insert(env, row, rest);
      forall j | 0 <= j < |tail| ensures Before(env, first, tail[j]) {
        assert tail[j] in multiset(tail);
        if tail[j] != row {
          assert tail[j] in rest;
        }
      }
    }
  }

  lemma {:induction false} SortSorts(env: Env, rows: seq<Row>)
    ensures Ordered(env, Sort(env, rows)) && multiset(Sort(env, rows)) == multiset(rows)
  {
    if rows != [] {
      assert rows == [rows[0]] + rows[1..];
      SortSorts(env, rows[1..]);
      InsertSorts(env, rows[0], Sort(env, rows[1..]));
    }
  }

  /** Smaller digests come first; rows with equal digests come in the order of their ids. */
  ghost predicate DigestsAscend(env: Env, a: Row, b: Row) {
    var first, second := env.digest(KeyOf(a), a.source, a.candId), env.digest(KeyOf(b), b.source, b.candId);
    first <= second && (first == second ==> a.candId <= b.candId || exists k: nat :: FirstLess(a.candId, b.candId, k))
  }

  lemma RankedByDigest(env: Env, rows: seq<Row>, stratum: StratumKey, i: nat, j: nat)
    requires i < j < |RankedStratum(env, rows, stratum)|
    ensures DigestsAscend(env, RankedStratum(env, rows, stratum)[i], RankedStratum(env, rows, stratum)[j])
  {
    var ranked := RankedStratum(env, rows, stratum);
    SortSorts(env, Eligible(rows, stratum));
    assert Before(env, ranked[i], ranked[j]);
    LexMeaning(ranked[i].candId, ranked[j].candId);
  }

  lemma {:induction false} EligibleCount(rows: seq<Row>, stratum: StratumKey, row: Row)
    ensures multiset(Eligible(rows, stratum))[row]
         == if row.finalPass && KeyOf(row) == stratum then multiset(rows)[row] else 0
  {
    if rows != [] {
      assert rows == [rows[0]] + rows[1..];
      EligibleCount(rows[1..], stratum, row);
    }
  }

  /** Exactly the passing rows of the stratum are ranked. */
  lemma RankedMembers(env: Env, rows: seq<Row>, stratum: StratumKey, row: Row)
    ensures row in RankedStratum(env, rows, stratum) <==> row in rows && row.finalPass && KeyOf(row) == stratum
  {
    SortSorts(env, Eligible(rows, stratum));
    EligibleCount(rows, stratum, row);
    var ranked := RankedStratum(env, rows, stratum);
    assert row in ranked <==> row in multiset(ranked);
    assert row in rows <==> row in multiset(rows);
  }

  /** Candidate ids identify rows. */
  ghost predicate UniqueIds(rows: seq<Row>) {
    forall a, b | a in rows && b in rows && a.candId == b.candId :: a == b
  }

  lemma FirstBeforeAll(env: Env, s: seq<Row>, row: Row)
    requires Ordered(env, s) && row in s
    ensures Before(env, s[0], row)
  {
    BeforeTotal(env, row, row);
    var i :| 0 <= i < |s| && s[i] == row;
  }

  lemma FirstAgrees(env: Env, s: seq<Row>, t: seq<Row>)
    requires Ordered(env, s) && Ordered(env, t) && multiset(s) == multiset(t) && UniqueIds(s)
    requires s != [] && t != []
    ensures s[0] == t[0]
  {
    assert s[0] in multiset(t) && t[0] in multiset(s);
    FirstBeforeAll(env, s, t[0]);
    FirstBeforeAll(env, t, s[0]);
    BeforeAntisymmetric(env, s[0], t[0]);
  }

  lemma {:induction false} OrderedIsUnique(env: Env, s: seq<Row>, t: seq<Row>)
    requires Ordered(env, s) && Ordered(env, t) && multiset(s) == multiset(t) && UniqueIds(s)
    ensures s == t
  {
    assert |s| == |multiset(s)| == |multiset(t)| == |t|;
    if s != [] {
      FirstAgrees(env, s, t);
      TailMembers(s);
      TailMembers(t);
      TailKeepsOrder(env, s);
      TailKeepsOrder(env, t);
      OrderedIsUnique(env, s[1..], t[1..]);
    }
  }

  lemma TailMembers(s: seq<Row>)
    requires s != []
    ensures multiset(s[1..]) == multiset(s) - multiset{s[0]}
  {
    assert s == [s[0]] + s[1..];
  }

  lemma TailKeepsOrder(env: Env, s: seq<Row>)
    requires s != [] && Ordered(env, s)
    ensures Ordered(env, s[1..]) && (UniqueIds(s) ==> UniqueIds(s[1..]))
  {}

  /** The ranked list does not depend on the order of the ledger. */
  lemma RankingIgnoresOrder(env: Env, rows: seq<Row>, other: seq<Row>, stratum: StratumKey)
    requires multiset(rows) == multiset(other) && UniqueIds(rows)
    ensures RankedStratum(env, rows, stratum) == RankedStratum(env, other, stratum)
  {
    forall row ensures multiset(Eligible(rows, stratum))[row] == multiset(Eligible(other, stratum))[row] {
      EligibleCount(rows, stratum, row);
      EligibleCount(other, stratum, row);
    }
    assert multiset(Eligible(rows, stratum)) == multiset(Eligible(other, stratum));
    SortSorts(env, Eligible(rows, stratum));
    SortSorts(env, Eligible(other, stratum));
    var ranked := RankedStratum(env, rows, stratum);
    forall a, b | a in ranked && b in ranked && a.candId == b.candId ensures a == b {
      RankedMembers(env, rows, stratum, a);
      RankedMembers(env, rows, stratum, b);
    }
    OrderedIsUnique(env, ranked, RankedStratum(env, other, stratum));
  }
}
