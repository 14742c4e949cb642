/** The unanimity and majority counts of the external analysis, and how they determine its Fleiss value. */
module ExternalAnalysis {
  import opened Basics
  import opened Results
  import opened Agreement
  import opened PanelAgreement

  datatype Item = Item(id: string)
  datatype Reviewer = Reviewer(name: string)

  /** The validated votes; an answer that is missing or does not validate has no label. */
  type Answers = map<(Item, Reviewer), Option<Label>>

  datatype Refusal = RequiresThreeReviewers | DuplicatePlannedItem | InvalidOwnerLabel | UnplannedAnswer

  datatype Ratio = Ratio(numerator: nat, denominator: nat)

  datatype Analysis = Analysis(
    completeCoverage: Ratio, unconditionalUnanimity: Ratio, conditionalUnanimity: Ratio, majorityAvailability: Ratio,
    ownerAvailability: Ratio, plannedAlignment: Ratio, conditionalAlignment: Ratio,
    majorities: map<Item, Label>, fleiss: Result<real, Undefined>)

  function LabelOf(answers: Answers, item: Item, reviewer: Reviewer): Option<Label> {
    if (item, reviewer) in answers then answers[(item, reviewer)] else None
  }

  predicate IsComplete(answers: Answers, item: Item, reviewers: seq<Reviewer>) {
    forall i: nat | i < |reviewers| :: LabelOf(answers, item, reviewers[i]).Some?
  }

  function CompleteItems(answers: Answers, items: seq<Item>, reviewers: seq<Reviewer>): (r: seq<Item>)
    ensures |r| <= |items|
    ensures forall i: nat | i < |r| :: IsComplete(answers, r[i], reviewers)
    ensures forall item: Item :: item in r <==> item in items && IsComplete(answers, item, reviewers)
  {
    if items == [] then []
    else
      var last := items[|items| - 1];
      CompleteItems(answers, items[..|items| - 1], reviewers)
        + (if IsComplete(answers, last, reviewers) then [last] else [])
  }

  function PanelOf(answers: Answers, item: Item, reviewers: seq<Reviewer>): (r: seq<Label>)
    requires IsComplete(answers, item, reviewers)
    ensures |r| == |reviewers|
    ensures forall i: nat | i < |r| :: Some(r[i]) == LabelOf(answers, item, reviewers[i])
  {
    seq(|reviewers|, i requires 0 <= i < |reviewers| => LabelOf(answers, item, reviewers[i]).value)
  }

  function PanelsOf(answers: Answers, items: seq<Item>, reviewers: seq<Reviewer>): (r: Panels)
    requires forall i: nat | i < |items| :: IsComplete(answers, items[i], reviewers)
    ensures |r| == |items| && forall i: nat | i < |r| :: r[i] == PanelOf(answers, items[i], reviewers)
  {
    seq(|items|, i requires 0 <= i < |items| => PanelOf(answers, items[i], reviewers))
  }

  function CountUnanimous(panels: Panels): (c: nat)
    ensures c <= |panels|
  {
    if panels == [] then 0
    else (if Unanimous(panels[|panels| - 1]) then 1 else 0) + CountUnanimous(panels[..|panels| - 1])
  }

  // ---- the majority

  /** The entry of a counter with the most occurrences, the first such on a tie. */
  function MostCommon(panel: seq<Label>): (l: Label)
    requires panel != []
    ensures l in panel
    ensures forall m: Label :: Count(panel, m) <= Count(panel, l)
  {
    Beyond(panel);
    Leader(panel, |panel|)
  }

  function Leader(panel: seq<Label>, k: nat): (l: Label)
    requires 0 < k <= |panel|
    ensures l in panel[..k]
    ensures forall i: nat | i < k :: Count(panel, panel[i]) <= Count(panel, l)
  {
    if k == 1 then panel[0]
    else
      var before := Leader(panel, k - 1);
      if Count(panel, panel[k - 1]) > Count(panel, before) then panel[k - 1] else before
  }

  /** A label that does not occur counts nothing. */
  lemma Beyond(panel: seq<Label>)
    ensures forall m: Label :: m in panel || Count(panel, m) == 0
  {
    forall m: Label ensures m in panel || Count(panel, m) == 0 {
      Absent(panel, m);
    }
  }

  lemma {:induction false} Absent(panel: seq<Label>, m: Label)
    ensures m in panel || Count(panel, m) == 0
  {
    if panel != [] {
      Absent(panel[..|panel| - 1], m);
    }
  }

  function Majority(panel: seq<Label>): Option<Label>
    requires panel != []
  {
    if Count(panel, MostCommon(panel)) >= 2 then Some(MostCommon(panel)) else None
  }

  /** With three raters the majority is the one label that two of them gave. */
  lemma MajorityIsTwo(panel: seq<Label>, l: Label)
    requires |panel| == 3
    ensures Majority(panel) == Some(l) <==> Count(panel, l) >= 2
  {
    CountThree(panel, l);
    CountThree(panel, MostCommon(panel));
  }

  lemma MajorityCases(panel: seq<Label>)
    requires |panel| == 3
    ensures Majority(panel).Some? <==> panel[0] == panel[1] || panel[0] == panel[2] || panel[1] == panel[2]
    ensures Unanimous(panel) ==> Majority(panel).Some?
  {
    var l := MostCommon(panel);
    CountThree(panel, l);
    CountThree(panel, panel[0]);
    CountThree(panel, panel[1]);
  }

  function CountMajorities(panels: Panels): (c: nat)
    requires ThreeRaters(panels)
    ensures c <= |panels|
  {
    if panels == [] then 0
    else (if Majority(panels[|panels| - 1]).Some? then 1 else 0) + CountMajorities(panels[..|panels| - 1])
  }

  /** The agreeing pairs of raters follow from how many panels are unanimous and how many have a majority. */
  lemma {:induction false} ScoresFromCounts(labels: seq<Label>, panels: Panels)
    requires Distinct(labels) && PanelsAmong(labels, panels) && ThreeRaters(panels)
    ensures Scores(labels, panels) == 4 * CountUnanimous(panels) + 2 * CountMajorities(panels)
    ensures CountUnanimous(panels) <= CountMajorities(panels)
  {
    if panels != [] {
      var rest := panels[..|panels| - 1];
      ScoresFromCounts(labels, rest);
      ScoreCases(labels, panels[|rest|]);
      MajorityCases(panels[|rest|]);
    }
  }

  lemma {:induction false} CountsAllUnanimous(panels: Panels)
    ensures CountUnanimous(panels) == |panels| <==> AllUnanimous(panels)
  {
    if panels != [] {
      UnanimousLast(panels);
      CountsAllUnanimous(panels[..|panels| - 1]);
    }
  }

  // ---- the analysis

  /** What the analysis demands of its inputs. */
  predicate WellFormed(labels: seq<Label>, planned: seq<Item>, reviewers: seq<Reviewer>, answers: Answers,
                       owners: map<Item, Option<Label>>)
  {
    && |reviewers| == 3 && Distinct(reviewers)
    && Distinct(planned)
    && (forall item | item in owners :: item in planned && (owners[item].Some? ==> owners[item].value in labels))
    && (forall key | key in answers :: key.0 in planned && key.1 in reviewers)
  }

  /** The answers were validated against the labels before. */
  predicate Validated(labels: seq<Label>, answers: Answers) {
    forall key | key in answers :: answers[key].Some? ==> answers[key].value in labels
  }

  function OwnerLabel(owners: map<Item, Option<Label>>, item: Item): Option<Label> {
    if item in owners then owners[item] else None
  }

  function MajorityOf(answers: Answers, reviewers: seq<Reviewer>, item: Item): Option<Label> {
    if reviewers == [] || !IsComplete(answers, item, reviewers) then None
    else Majority(PanelOf(answers, item, reviewers))
  }

  function Lookup(m: map<Item, Label>, item: Item): Option<Label> {
    if item in m then Some(m[item]) else None
  }

  /** The map holds what f gives for these items, and nothing else. */
  ghost predicate Collects(f: Item -> Option<Label>, items: seq<Item>, m: map<Item, Label>) {
    forall item: Item :: Lookup(m, item) == if item in items then f(item) else None
  }

  ghost predicate AreMajorities(answers: Answers, reviewers: seq<Reviewer>, items: seq<Item>, m: map<Item, Label>) {
    Collects(item => MajorityOf(answers, reviewers, item), items, m)
  }

  lemma CollectsMore(f: Item -> Option<Label>, items: seq<Item>, item: Item, m: map<Item, Label>, m': map<Item, Label>)
    requires item !in items && Collects(f, items, m)
    requires m' == if f(item).Some? then m[item := f(item).value] else m
    ensures Collects(f, items + [item], m')
  {
    assert Lookup(m, item) == None;
  }

  /** The loop over the complete items. */
  method Majorities(answers: Answers, reviewers: seq<Reviewer>, items: seq<Item>) returns (majorities: map<Item, Label>)
    requires |reviewers| == 3 && Distinct(items)
    requires forall i: nat | i < |items| :: IsComplete(answers, items[i], reviewers)
    ensures AreMajorities(answers, reviewers, items, majorities)
  {
    majorities := map[];
    ghost var f := item => MajorityOf(answers, reviewers, item);
    for k := 0 to |items|
      invariant Collects(f, items[..k], majorities)
    {
      ghost var before := majorities;
      var majority := Majority(PanelOf(answers, items[k], reviewers));
      if majority.Some? {
        majorities := majorities[items[k] := majority.value];
      }
      assert items[..k + 1] == items[..k] + [items[k]];
      CollectsMore(f, items[..k], items[k], before, majorities);
    }
    assert items[..|items|] == items;
  }

  function CountSome(f: Item -> Option<Label>, items: seq<Item>): nat {
    if items == [] then 0 else (if f(items[|items| - 1]).Some? then 1 else 0) + CountSome(f, items[..|items| - 1])
  }

  function WithSome(f: Item -> Option<Label>, items: seq<Item>): set<Item> {
    set item | item in items && f(item).Some?
  }

  lemma {:induction false} CountedOnce(f: Item -> Option<Label>, items: seq<Item>)
    requires Distinct(items)
    ensures |WithSome(f, items)| == CountSome(f, items)
  {
    if items != [] {
      var last, rest := items[|items| - 1], items[..|items| - 1];
      CountedOnce(f, rest);
      assert items == rest + [last] && last !in rest;
      assert WithSome(f, items) == WithSome(f, rest) + if f(last).Some? then {last} else {};
    }
  }

  lemma CollectedSize(f: Item -> Option<Label>, items: seq<Item>, m: map<Item, Label>)
    requires Distinct(items) && Collects(f, items, m)
    ensures |m| == CountSome(f, items)
  {
    CountedOnce(f, items);
    forall item: Item ensures item in m.Keys <==> item in WithSome(f, items) {
      assert Lookup(m, item) == if item in items then f(item) else None;
    }
    assert m.Keys == WithSome(f, items);
  }

  lemma {:induction false} CountedByItem(answers: Answers, reviewers: seq<Reviewer>, items: seq<Item>)
    requires |reviewers| == 3
    requires forall i: nat | i < |items| :: IsComplete(answers, items[i], reviewers)
    ensures CountMajorities(PanelsOf(answers, items, reviewers))
      == CountSome(item => MajorityOf(answers, reviewers, item), items)
  {
    if items != [] {
      var rest := items[..|items| - 1];
      assert PanelsOf(answers, items, reviewers)[..|items| - 1] == PanelsOf(answers, rest, reviewers);
      CountedByItem(answers, reviewers, rest);
    }
  }

  lemma {:induction false} CompleteAreDistinct(answers: Answers, items: seq<Item>, reviewers: seq<Reviewer>)
    requires Distinct(items)
    ensures Distinct(CompleteItems(answers, items, reviewers))
  {
    if items != [] {
      CompleteAreDistinct(answers, items[..|items| - 1], reviewers);
    }
  }

  /** What the numbers of an analysis say of the complete items, and how they bound one another. */
  ghost predicate Describes(a: Analysis, labels: seq<Label>, planned: seq<Item>, reviewers: seq<Reviewer>,
      answers: Answers, owners: map<Item, Option<Label>>)
    requires |reviewers| == 3
  {
    var complete := CompleteItems(answers, planned, reviewers);
    var panels := PanelsOf(answers, complete, reviewers);
    && a.completeCoverage == Ratio(|complete|, |planned|)
    && a.unconditionalUnanimity == Ratio(CountUnanimous(panels), |planned|)
    && a.conditionalUnanimity == Ratio(CountUnanimous(panels), |complete|)
    && a.majorityAvailability == Ratio(|a.majorities|, |planned|)
    && AreMajorities(answers, reviewers, complete, a.majorities)
    && a.fleiss == Fleiss(labels, panels)
    && Aligned(a, planned, owners)
  }

  /** The owner's labels against the majorities. */
  ghost predicate Aligned(a: Analysis, planned: seq<Item>, owners: map<Item, Option<Label>>) {
    var present := set item | item in planned && OwnerLabel(owners, item).Some?;
    var both := set item | item in present && item in a.majorities;
    var equal := set item | item in both && Some(a.majorities[item]) == OwnerLabel(owners, item);
    && a.ownerAvailability == Ratio(|present|, |planned|)
    && a.conditionalAlignment == Ratio(|equal|, |both|)
    && a.plannedAlignment == Ratio(|equal|, |planned|)
  }

  /** The four refusals, in the order of the source. */
  method Admit(labels: seq<Label>, planned: seq<Item>, reviewers: seq<Reviewer>, answers: Answers,
               owners: map<Item, Option<Label>>)
    returns (refusal: Option<Refusal>)
    ensures refusal.None? <==> WellFormed(labels, planned, reviewers, answers, owners)
  {
    if |reviewers| != 3 || !Distinct(reviewers) {
      return Some(RequiresThreeReviewers);
    }
    if !Distinct(planned) {
      return Some(DuplicatePlannedItem);
    }
    if !forall item | item in owners :: item in planned && (owners[item].Some? ==> owners[item].value in labels) {
      return Some(InvalidOwnerLabel);
    }
    if !forall key | key in answers :: key.0 in planned && key.1 in reviewers {
      return Some(UnplannedAnswer);
    }
    return None;
  }

  /** `analyze_external`, up to the pairwise and the per-reviewer tables. */
  method AnalyzeExternal(labels: seq<Label>, planned: seq<Item>, reviewers: seq<Reviewer>, answers: Answers,
                         owners: map<Item, Option<Label>>)
    returns (r: Result<Analysis, Refusal>)
    requires Distinct(labels) && Validated(labels, answers)
    ensures r.Ok? <==> WellFormed(labels, planned, reviewers, answers, owners)
    ensures r.Ok? ==> Describes(r.value, labels, planned, reviewers, answers, owners)
  {
    var refusal := Admit(labels, planned, reviewers, answers, owners);
    if refusal.Some? {
      return Err(refusal.value);
    }
    var complete := CompleteItems(answers, planned, reviewers);
    var panels := PanelsOf(answers, complete, reviewers);
    var unanimous := CountUnanimous(panels);
    CompleteAreDistinct(answers, planned, reviewers);
    var majorities := Majorities(answers, reviewers, complete);
    var present := set item | item in planned && OwnerLabel(owners, item).Some?;
    var both := set item | item in present && item in majorities;
    var equal := set item | item in both && Some(majorities[item]) == OwnerLabel(owners, item);
    r := Ok(Analysis(
      Ratio(|complete|, |planned|), Ratio(unanimous, |planned|), Ratio(unanimous, |complete|),
      Ratio(|majorities|, |planned|), Ratio(|present|, |planned|), Ratio(|equal|, |planned|),
      Ratio(|equal|, |both|), majorities, Fleiss(labels, panels)));
  }

  /** The agreement of an analysis follows from its counts: u unanimous items and m majorities among c complete ones
      leave 4u + 2m agreeing pairs of raters out of 6c, so the value is 1 exactly when all complete items
      are unanimous. */
  lemma FleissFromCounts(a: Analysis, labels: seq<Label>, planned: seq<Item>, reviewers: seq<Reviewer>,
      answers: Answers, owners: map<Item, Option<Label>>)
    requires Distinct(labels) && Validated(labels, answers) && WellFormed(labels, planned, reviewers, answers, owners)
    requires Describes(a, labels, planned, reviewers, answers, owners)
    ensures Scores(labels, PanelsOf(answers, CompleteItems(answers, planned, reviewers), reviewers))
         == 4 * a.conditionalUnanimity.numerator + 2 * |a.majorities|
    ensures a.conditionalUnanimity.numerator <= |a.majorities| <= a.completeCoverage.numerator <= |planned|
    ensures a.fleiss == Err(NoData) <==> a.completeCoverage.numerator == 0
    ensures a.fleiss != Err(NotThreeRaters)
    ensures a.fleiss.Ok? ==> -0.5 <= a.fleiss.value <= 1.0
    ensures a.fleiss.Ok? ==>
      (a.fleiss.value == 1.0 <==> a.conditionalUnanimity.numerator == a.completeCoverage.numerator)
  {
    var complete := CompleteItems(answers, planned, reviewers);
    var panels := PanelsOf(answers, complete, reviewers);
    PanelsAreAmong(labels, answers, complete, reviewers);
    ScoresFromCounts(labels, panels);
    FleissRange(labels, panels);
    CountsAllUnanimous(panels);
    CountedByItem(answers, reviewers, complete);
    CompleteAreDistinct(answers, planned, reviewers);
    CollectedSize(item => MajorityOf(answers, reviewers, item), complete, a.majorities);
  }

  lemma PanelsAreAmong(labels: seq<Label>, answers: Answers, items: seq<Item>, reviewers: seq<Reviewer>)
    requires Validated(labels, answers)
    requires forall i: nat | i < |items| :: IsComplete(answers, items[i], reviewers)
    ensures PanelsAmong(labels, PanelsOf(answers, items, reviewers))
  {
    forall i: nat | i < |items| ensures Among(labels, PanelOf(answers, items[i], reviewers)) {
      var panel := PanelOf(answers, items[i], reviewers);
      forall j: nat | j < |panel| ensures panel[j] in labels {
        assert Some(panel[j]) == LabelOf(answers, items[i], reviewers[j]);
      }
    }
  }
}
