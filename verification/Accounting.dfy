/** The accounting report of a policy, and what it says about the run. */
module Accounting {
  import opened Results
  import opened Policy
  import opened PolicyBooks

  datatype Coverage = Violated | Unestablished | WithinRecordedReservations

  /** Hashing is symbolic: equal digests have equal preimages. */
  datatype ExtrasDigest = ExtrasDigest(preimage: seq<Extra>)

  datatype Report = Report(
    knownHaiku: nat, knownTitan: nat,
    holdsHaiku: nat, holdsTitan: nat,
    boundEstablished: bool,
    ceilingEstablished: bool,
    coverage: Coverage,
    marks: seq<Mark>,
    extraCount: nat,
    digest: ExtrasDigest,
    extras: Option<seq<Extra>>)

  const MARKS := 6

  /** The marks in alphabetical order of their names. */
  function MarkAt(i: nat): Mark {
    if i == 0 then OfStage(Embedding) else if i == 1 then OfStage(Generation) else if i == 2 then OfStage(Index)
    else if i == 3 then OfStage(Metadata) else if i == 4 then OfStage(Router) else UnidentifiedModelRequest
  }

  function RankOf(mark: Mark): (i: nat)
    ensures i < MARKS && MarkAt(i) == mark
  {
    match mark
    case UnidentifiedModelRequest => 5
    case OfStage(stage) =>
      match stage case Embedding => 0 case Generation => 1 case Index => 2 case Metadata => 3 case Router => 4
  }

  function MarksFrom(marks: set<Mark>, i: nat): seq<Mark>
    decreases MARKS - i
  {
    if i >= MARKS then [] else (if MarkAt(i) in marks then [MarkAt(i)] else []) + MarksFrom(marks, i + 1)
  }

  /** `sorted(unestablished_stages)` */
  function MarkList(marks: set<Mark>): seq<Mark> { MarksFrom(marks, 0) }

  ghost predicate DistinctMarks(marks: seq<Mark>) {
    forall i, j | 0 <= i < j < |marks| :: marks[i] != marks[j]
  }

  lemma {:induction false} MarksFromMembers(marks: set<Mark>, i: nat, mark: Mark)
    ensures mark in MarksFrom(marks, i) <==> mark in marks && RankOf(mark) >= i
    decreases MARKS - i
  {
    if i < MARKS {
      MarksFromMembers(marks, i + 1, mark);
      RankAt(i);
    }
  }

  lemma RankAt(i: nat)
    requires i < MARKS
    ensures RankOf(MarkAt(i)) == i
  {}

  lemma {:induction false} MarksFromDistinct(marks: set<Mark>, i: nat)
    ensures DistinctMarks(MarksFrom(marks, i))
    decreases MARKS - i
  {
    if i < MARKS {
      MarksFromDistinct(marks, i + 1);
      RankAt(i);
      MarksFromMembers(marks, i + 1, MarkAt(i));
    }
  }

  lemma MarkListFaithful(marks: set<Mark>)
    ensures forall mark :: mark in MarkList(marks) <==> mark in marks
    ensures MarkList(marks) == [] <==> marks == {}
    ensures DistinctMarks(MarkList(marks))
  {
    forall mark ensures mark in MarkList(marks) <==> mark in marks { MarksFromMembers(marks, 0, mark); }
    MarksFromDistinct(marks, 0);
    if mark :| mark in marks {
      assert mark in MarkList(marks);
    }
    if MarkList(marks) != [] {
      assert MarkList(marks)[0] in MarkList(marks);
    }
  }

  function CoverageOf(a: Account): Coverage {
    if a.violated then Violated else if a.marks != {} then Unestablished else WithinRecordedReservations
  }

  function ReportOf(c: Config, a: Account, compact: bool): Report {
    Report(Known(a, Haiku), Known(a, Titan), Holds(a.attempts, Haiku), Holds(a.attempts, Titan),
           a.marks == {}, a.marks == {} && !a.violated && WithinCaps(c, a), CoverageOf(a), MarkList(a.marks),
           |a.extras|, ExtrasDigest(a.extras), if compact then None else Some(a.extras))
  }

  /** In every reachable state the report accounts for the whole exposure, provider by provider, and
      its four-part ceiling test says no more than "bound established and coverage not violated". */
  lemma ReportExplainsExposure(c: Config, s: State, compact: bool)
    requires ValidConfig(c) && Reachable(c, s)
    ensures var r := ReportOf(c, s.account, compact);
      && s.account.haiku == r.holdsHaiku + r.knownHaiku
      && s.account.titan == r.holdsTitan + r.knownTitan
      && (r.ceilingEstablished <==> r.boundEstablished && r.coverage != Violated)
      && (!WithinCaps(c, s.account) ==> r.coverage == Violated || !r.boundEstablished)
  {
    ReachableIsSound(c, s);
  }
}
