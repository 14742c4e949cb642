/** The written forms that rows and receipts must carry, as numbers written out in hexadecimal. */
module Identifiers {
  import opened Results
  import opened Ledger
  import opened Selection
  import opened GreedyScan
  import opened ScanGuarantees
  import opened Replay

  const DIGITS := "0123456789abcdef"

  function Power(width: nat): nat {
    if width == 0 then 1 else 16 * Power(width - 1)
  }

  /** A number written with a fixed number of lower-case hexadecimal digits. */
  function Hex(n: nat, width: nat): string
    requires n < Power(width)
  {
    if width == 0 then "" else Hex(n / 16, width - 1) + [DIGITS[n % 16]]
  }

  lemma HexDigitIsDigit(c: char)
    ensures HexDigit(c) <==> exists d: nat :: d < 16 && DIGITS[d] == c
  {
    if '0' <= c <= '9' {
      assert DIGITS[c as int - '0' as int] == c;
    }
    if 'a' <= c <= 'f' {
      assert DIGITS[10 + (c as int - 'a' as int)] == c;
    }
  }

  /** The number that a text of digits stands for. */
  lemma {:induction false} ReadHex(s: string) returns (n: nat)
    requires forall i | 0 <= i < |s| :: HexDigit(s[i])
    ensures n < Power(|s|) && s == Hex(n, |s|)
  {
    if s == [] {
      n := 0;
    } else {
      var init, last := s[..|s| - 1], s[|s| - 1];
      assert s == init + [last];
      var high := ReadHex(init);
      HexDigitIsDigit(last);
      var d: nat :| d < 16 && DIGITS[d] == last;
      n := 16 * high + d;
      assert n / 16 == high && n % 16 == d;
    }
  }

  lemma {:induction false} HexIsDigits(n: nat, width: nat)
    requires n < Power(width)
    ensures |Hex(n, width)| == width && forall i | 0 <= i < width :: HexDigit(Hex(n, width)[i])
  {
    if width > 0 {
      HexIsDigits(n / 16, width - 1);
      HexDigitIsDigit(DIGITS[n % 16]);
    }
  }

  ghost predicate WritesId(id: string, n: nat) {
    n < Power(10) && id == "c_" + Hex(n, 10)
  }

  /** Candidate ids are exactly the forty-bit numbers, written after `c_`. */
  lemma CandidateIdsAreNumbers(id: string)
    ensures IsCandidateId(id) <==> exists n: nat :: WritesId(id, n)
  {
    if IsCandidateId(id) {
      var n := ReadHex(id[2..]);
      assert id == "c_" + id[2..] && WritesId(id, n);
    }
    if n: nat :| WritesId(id, n) {
      HexIsDigits(n, 10);
      assert id[2..] == Hex(n, 10);
      forall i | 2 <= i < 12 ensures HexDigit(id[i]) {
        assert id[i] == Hex(n, 10)[i - 2];
      }
    }
  }

  /** A digest is a number of 256 bits, written out. */
  ghost predicate WritesDigest(value: Option<string>) {
    value.Some? && exists n: nat :: n < Power(64) && value.value == Hex(n, 64)
  }

  lemma DigestsAreNumbers(value: Option<string>)
    ensures HexDigest(value) <==> WritesDigest(value)
  {
    if HexDigest(value) {
      var n := ReadHex(value.value);
    }
    if WritesDigest(value) {
      var n: nat :| n < Power(64) && value.value == Hex(n, 64);
      HexIsDigits(n, 64);
    }
  }

  // ---- rows and receipts

  /** The six registered pairs of source and stratum, with their quotas. */
  ghost predicate InTable(source: string, stratum: string, quota: nat) {
    || (source == "tatqa" && stratum == "T1_qa" && quota == 4)
    || (source == "finqa" && stratum == "T1_qa" && quota == 4)
    || (source == "finlfqa" && stratum == "num" && quota == 4)
    || (source == "finlfqa" && stratum == "interp" && quota == 6)
    || (source == "finlfqa" && stratum == "other" && quota == 4)
    || (source == "finlfqa" && stratum == "mixed" && quota == 2)
  }

  lemma TableHolds(source: string, stratum: string, quota: nat)
    ensures InTable(source, stratum, quota) <==> Entry((source, stratum), quota) in STRATUM_ENTRIES
    ensures (exists q: nat :: InTable(source, stratum, q)) <==> (source, stratum) in STRATA
  {
    TableIsValid();
    if (source, stratum) in STRATA {
      var t: nat :| t < |STRATA| && STRATA[t] == (source, stratum);
      assert InTable(source, stratum, QUOTAS[t]);
    }
  }

  /** A row with an id of the written form that belongs to the table. */
  ghost predicate Labelled(row: Row) {
    && (exists n: nat :: WritesId(row.candId, n))
    && (exists quota: nat :: InTable(row.source, row.stratum, quota))
  }

  lemma LabelSays(row: Row)
    ensures HasLabel(row) <==> Labelled(row)
  {
    CandidateIdsAreNumbers(row.candId);
    TableHolds(row.source, row.stratum, 0);
  }

  /** A run takes place exactly when every passing row is labelled. */
  lemma RegisteredSays(rows: seq<Row>)
    ensures Registered(rows) <==> forall row | row in rows && row.finalPass :: Labelled(row)
  {
    forall row: Row ensures HasLabel(row) <==> Labelled(row) {
      LabelSays(row);
    }
  }

  /** No passing row of a registered ledger is left out of the strata that are ranked. */
  lemma EveryRowIsRanked(env: Env, rows: seq<Row>, row: Row)
    requires Registered(rows) && row in rows && row.finalPass
    ensures exists t: nat ::
      t < |STRATUM_ENTRIES| && row in RankedStratum(env, rows, STRATUM_ENTRIES[t].stratum)
  {
    TableIsValid();
    var t: nat :| t < |STRATA| && STRATA[t] == KeyOf(row);
    RankedMembers(env, rows, STRATUM_ENTRIES[t].stratum, row);
  }

  /** What an accepted receipt says, field by field. */
  lemma GenuineSays(run: Run, receipt: Receipt, inputs: string)
    ensures Genuine(run, receipt, inputs) <==>
      && receipt.seed == 20261001 && receipt.inputs == inputs
      && receipt.results == run.results && receipt.decisions == run.decisions && receipt.stopped == run.stopped
      && (receipt.status == Success <==> run.stopped.None?)
      && |receipt.acceptedIdentities| == |run.accepted|
      && (forall i | 0 <= i < |run.accepted| ::
            receipt.acceptedIdentities[i] == Identity(run.accepted[i].source, run.accepted[i].candId))
      && (if run.stopped.None? then WritesDigest(receipt.packet) && WritesDigest(receipt.mapping)
          else receipt.packet.None? && receipt.mapping.None?)
  {
    DigestsAreNumbers(receipt.packet);
    DigestsAreNumbers(receipt.mapping);
    var same := |receipt.acceptedIdentities| == |run.accepted| && forall i | 0 <= i < |run.accepted| ::
      receipt.acceptedIdentities[i] == Identity(run.accepted[i].source, run.accepted[i].candId);
    assert same <==> receipt.acceptedIdentities == Identities(run.accepted);
  }
}
