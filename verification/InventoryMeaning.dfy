/** Which additions are taken and whom they expose, in terms of the rows and the additions alone. */
module InventoryMeaning {
  import opened Results
  import opened Ledger
  import opened Exposure
  import opened InventoryBuilding

  // ---- rows by id and by text

  /** The row that an id stands for: the last one that has it. */
  ghost predicate LastWith(rows: seq<Row>, id: string, k: nat) {
    k < |rows| && rows[k].candId == id && forall j: nat | k < j < |rows| :: rows[j].candId != id
  }

  lemma {:induction false} ByIdIsLast(rows: seq<Row>, id: string)
    ensures id in ById(rows) <==> exists k: nat :: LastWith(rows, id, k)
    ensures forall k: nat | LastWith(rows, id, k) :: ById(rows)[id] == rows[k]
  {
    if rows != [] {
      var init, n := rows[..|rows| - 1], |rows| - 1;
      ByIdIsLast(init, id);
      if rows[n].candId == id {
        assert LastWith(rows, id, n);
      } else {
        forall k: nat ensures LastWith(rows, id, k) <==> LastWith(init, id, k) {
          assert k < n ==> init[k] == rows[k];
          assert forall j: nat | j < n :: init[j] == rows[j];
        }
      }
    }
  }

  /** The ids of the rows that have a text, in ledger order. */
  function WithText(rows: seq<Row>, text: string): seq<string> {
    if rows == [] then [] else
      WithText(rows[..|rows| - 1], text)
      + (if rows[|rows| - 1].question == text then [rows[|rows| - 1].candId] else [])
  }

  /** The ids of the rows whose text normalizes to a form, in ledger order. */
  function WithForm(normalize: Normalize, rows: seq<Row>, form: string): seq<string> {
    if rows == [] then [] else
      WithForm(normalize, rows[..|rows| - 1], form)
      + (if normalize(rows[|rows| - 1].question) == form then [rows[|rows| - 1].candId] else [])
  }

  lemma {:induction false} TextIsIndexed(rows: seq<Row>, text: string)
    ensures text in IdsBy(rows, QuestionOf()) <==> WithText(rows, text) != []
    ensures text in IdsBy(rows, QuestionOf()) ==> IdsBy(rows, QuestionOf())[text] == WithText(rows, text)
    ensures forall id :: id in WithText(rows, text) <==>
      exists row :: row in rows && row.candId == id && row.question == text
  {
    if rows != [] {
      var init, last := rows[..|rows| - 1], rows[|rows| - 1];
      assert rows == init + [last];
      TextIsIndexed(init, text);
    }
  }

  lemma {:induction false} FormIsIndexed(normalize: Normalize, rows: seq<Row>, form: string)
    ensures form in IdsBy(rows, NormalizedQuestionOf(normalize)) <==> WithForm(normalize, rows, form) != []
    ensures form in IdsBy(rows, NormalizedQuestionOf(normalize)) ==>
      IdsBy(rows, NormalizedQuestionOf(normalize))[form] == WithForm(normalize, rows, form)
    ensures forall id :: id in WithForm(normalize, rows, form) <==>
      exists row :: row in rows && row.candId == id && normalize(row.question) == form
  {
    if rows != [] {
      var init, last := rows[..|rows| - 1], rows[|rows| - 1];
      assert rows == init + [last];
      FormIsIndexed(normalize, init, form);
    }
  }

  // ---- additions

  /** An addition is taken when its kind is known and it names a row of the population, with the text of that row if it
      gives one, or gives a text that normalizes to something. */
  ghost predicate Takes(normalize: Normalize, rows: seq<Row>, a: Addition) {
    && !a.category.UnregisteredCategory? && !a.completeness.OtherCompleteness?
    && match a.cid
       case None => a.question.Some? && normalize(a.question.value) != ""
       case Some(id) =>
         && (id == "" ==> a.question.Some?)
         && exists k: nat :: LastWith(rows, id, k) && (a.question.Some? ==> a.question.value == rows[k].question)
  }

  /** The candidates an addition is about, one for every row it names: by id, by exact text when some row has it, and
      by normalized text otherwise. */
  function NamedBy(normalize: Normalize, rows: seq<Row>, a: Addition): seq<string> {
    match a.cid
    case Some(id) => [id]
    case None =>
      var text := a.question.GetOr("");
      if WithText(rows, text) != [] then WithText(rows, text) else WithForm(normalize, rows, normalize(text))
  }

  function ResolvedBy(rows: seq<Row>, a: Addition, named: seq<string>): Resolution {
    if a.cid.Some? then CandidateId
    else if WithText(rows, a.question.GetOr("")) != [] then ExactOriginalQuestion
    else if named != [] then RegisteredNormalizedEquality
    else OutsidePilotFullText
  }

  /** What one piece of evidence says. */
  ghost predicate SaysOf(rows: seq<Row>, a: Addition, resolution: Resolution, id: string, e: Evidence) {
    && e.category == a.category && e.completeness == a.completeness && e.note == a.note && e.resolution == resolution
    && e.candId == Some(id)
    && (id != "" ==> exists k: nat :: LastWith(rows, id, k) && e.sha == Sha(rows[k].question))
    && (id == "" ==> e.sha == Sha(a.question.GetOr("")))
  }

  lemma IdentifiedIsNamed(normalize: Normalize, rows: seq<Row>, a: Addition)
    requires a.cid.None? ==> a.question.Some? && normalize(a.question.value) != ""
    requires a.cid.Some? ==> exists k: nat ::
      LastWith(rows, a.cid.value, k) && (a.question.Some? ==> a.question.value == rows[k].question)
    ensures var named := NamedBy(normalize, rows, a);
      Identified(normalize, rows, a.cid, a.question) == Ok(Found(named, ResolvedBy(rows, a, named)))
  {
    if a.cid.Some? {
      ByIdIsLast(rows, a.cid.value);
    } else {
      TextIsIndexed(rows, a.question.value);
      FormIsIndexed(normalize, rows, normalize(a.question.value));
    }
  }

  lemma IdentifiedOnlyThen(normalize: Normalize, rows: seq<Row>, a: Addition)
    requires Identified(normalize, rows, a.cid, a.question).Ok?
    ensures a.cid.None? ==> a.question.Some? && normalize(a.question.value) != ""
    ensures a.cid.Some? ==> exists k: nat ::
      LastWith(rows, a.cid.value, k) && (a.question.Some? ==> a.question.value == rows[k].question)
  {
    if a.cid.Some? {
      ByIdIsLast(rows, a.cid.value);
    }
  }

  lemma NamedAreRows(normalize: Normalize, rows: seq<Row>, a: Addition, id: string)
    requires Takes(normalize, rows, a) && id in NamedBy(normalize, rows, a)
    ensures id in ById(rows) && exists k: nat :: LastWith(rows, id, k)
  {
    IdentifiedIsNamed(normalize, rows, a);
    IdentifiedFacts(normalize, rows, a.cid, a.question);
    ByIdIsLast(rows, id);
  }

  /** An addition is taken exactly on the stated condition. */
  lemma TakenExactly(normalize: Normalize, rows: seq<Row>, a: Addition)
    ensures Accepted(normalize, rows, a).Ok? <==> Takes(normalize, rows, a)
  {
    if Identified(normalize, rows, a.cid, a.question).Ok? {
      IdentifiedOnlyThen(normalize, rows, a);
    }
    if Takes(normalize, rows, a) {
      IdentifiedIsNamed(normalize, rows, a);
    }
  }

  /** Its evidence is one piece for every row it names, in ledger order, or one piece about its text when it names
      none. */
  lemma EvidenceExactly(normalize: Normalize, rows: seq<Row>, a: Addition)
    requires Takes(normalize, rows, a)
    ensures Accepted(normalize, rows, a).Ok?
    ensures var named, evidence := NamedBy(normalize, rows, a), Accepted(normalize, rows, a).value;
      && (named != [] ==> |evidence| == |named| && forall i: nat | i < |named| ::
            SaysOf(rows, a, ResolvedBy(rows, a, named), named[i], evidence[i]))
      && (named == [] ==> evidence == [Evidence(a.category, a.completeness, None, Sha(a.question.GetOr("")),
            OutsidePilotFullText, a.note)])
  {
    TakenExactly(normalize, rows, a);
    IdentifiedIsNamed(normalize, rows, a);
    var named := NamedBy(normalize, rows, a);
    var resolution, evidence := ResolvedBy(rows, a, named), Accepted(normalize, rows, a).value;
    if named != [] {
      assert evidence == EvidenceForAll(rows, a, named, resolution);
      forall i: nat | i < |named| ensures SaysOf(rows, a, resolution, named[i], evidence[i]) {
        NamedAreRows(normalize, rows, a, named[i]);
        ByIdIsLast(rows, named[i]);
        assert evidence[i] == EvidenceFor(rows, a, Some(named[i]), resolution);
      }
    }
  }

  /** The rows an addition without an id exposes: all those with exactly its text, or else all whose text normalizes
      alike. */
  lemma NamedMembers(normalize: Normalize, rows: seq<Row>, a: Addition, id: string)
    requires a.cid.None? && a.question.Some?
    ensures (exists row :: row in rows && row.question == a.question.value) ==>
      (id in NamedBy(normalize, rows, a) <==>
        exists row :: row in rows && row.candId == id && row.question == a.question.value)
    ensures (forall row | row in rows :: row.question != a.question.value) ==>
      (id in NamedBy(normalize, rows, a) <==>
        exists row :: row in rows && row.candId == id && normalize(row.question) == normalize(a.question.value))
  {
    TextIsIndexed(rows, a.question.value);
    FormIsIndexed(normalize, rows, normalize(a.question.value));
    if row :| row in rows && row.question == a.question.value {
      assert row.candId in WithText(rows, a.question.value);
    }
    if WithText(rows, a.question.value) != [] {
      assert WithText(rows, a.question.value)[0] in WithText(rows, a.question.value);
    }
  }

  // ---- sequences of additions

  /** The candidates exposed by additions that are taken. */
  ghost function ExposedBy(normalize: Normalize, rows: seq<Row>, additions: seq<Addition>): set<string> {
    set a, id | a in additions && Takes(normalize, rows, a) && id in NamedBy(normalize, rows, a) :: id
  }

  /** The texts of taken additions that name no row. */
  ghost function OutsideBy(normalize: Normalize, rows: seq<Row>, additions: seq<Addition>): set<Sha> {
    set a | a in additions && Takes(normalize, rows, a) && NamedBy(normalize, rows, a) == [] ::
      Sha(a.question.GetOr(""))
  }

  lemma EvidenceAt(normalize: Normalize, rows: seq<Row>, a: Addition, evidence: seq<Evidence>, i: nat)
    requires Takes(normalize, rows, a) && Accepted(normalize, rows, a) == Ok(evidence)
    requires NamedBy(normalize, rows, a) != [] && i < |evidence|
    ensures i < |NamedBy(normalize, rows, a)| && evidence[i].candId == Some(NamedBy(normalize, rows, a)[i])
    ensures |evidence| == |NamedBy(normalize, rows, a)|
  {
    EvidenceExactly(normalize, rows, a);
    var named := NamedBy(normalize, rows, a);
    assert SaysOf(rows, a, ResolvedBy(rows, a, named), named[i], evidence[i]);
  }

  lemma OneExposes(normalize: Normalize, rows: seq<Row>, a: Addition, evidence: seq<Evidence>)
    requires Takes(normalize, rows, a) && Accepted(normalize, rows, a) == Ok(evidence)
    ensures Direct(evidence) == set id | id in NamedBy(normalize, rows, a)
    ensures OutsideHashes(evidence) == if NamedBy(normalize, rows, a) == [] then {Sha(a.question.GetOr(""))} else {}
  {
    EvidenceExactly(normalize, rows, a);
    var named := NamedBy(normalize, rows, a);
    if named != [] {
      forall i: nat | i < |evidence| ensures evidence[i].candId == Some(named[i]) {
        EvidenceAt(normalize, rows, a, evidence, i);
      }
      ListExposes(named, evidence);
    }
  }

  lemma ListExposes(named: seq<string>, evidence: seq<Evidence>)
    requires |named| == |evidence| && forall i: nat | i < |evidence| :: evidence[i].candId == Some(named[i])
    ensures Direct(evidence) == (set id | id in named) && OutsideHashes(evidence) == {}
  {
    forall id | id in named ensures id in Direct(evidence) {
      var i: nat :| i < |named| && named[i] == id;
      assert evidence[i] in evidence;
    }
  }

  lemma ExposedByLast(normalize: Normalize, rows: seq<Row>, init: seq<Addition>, last: Addition)
    ensures ExposedBy(normalize, rows, init + [last]) == ExposedBy(normalize, rows, init)
      + (if Takes(normalize, rows, last) then set id | id in NamedBy(normalize, rows, last) else {})
  {
    assert forall a :: a in init + [last] <==> a in init || a == last;
  }

  lemma OutsideByLast(normalize: Normalize, rows: seq<Row>, init: seq<Addition>, last: Addition)
    ensures OutsideBy(normalize, rows, init + [last]) == OutsideBy(normalize, rows, init)
      + (if Takes(normalize, rows, last) && NamedBy(normalize, rows, last) == []
         then {Sha(last.question.GetOr(""))} else {})
  {
    assert forall a :: a in init + [last] <==> a in init || a == last;
  }

  /** The inventory of a sequence of additions exposes exactly the candidates and the texts that they name. */
  lemma {:induction false} AllExpose(normalize: Normalize, rows: seq<Row>, additions: seq<Addition>)
    ensures Direct(EvidenceOf(normalize, rows, additions)) == ExposedBy(normalize, rows, additions)
    ensures OutsideHashes(EvidenceOf(normalize, rows, additions)) == OutsideBy(normalize, rows, additions)
  {
    if additions != [] {
      var init, last := additions[..|additions| - 1], additions[|additions| - 1];
      assert additions == init + [last];
      AllExpose(normalize, rows, init);
      ExposedByLast(normalize, rows, init, last);
      OutsideByLast(normalize, rows, init, last);
      TakenExactly(normalize, rows, last);
      var before := EvidenceOf(normalize, rows, init);
      if Takes(normalize, rows, last) {
        var more := Accepted(normalize, rows, last).value;
        OneExposes(normalize, rows, last, more);
        PartsExpose(before, more);
      } else {
        assert before + [] == before;
      }
    }
  }

  lemma PartsExpose(first: seq<Evidence>, second: seq<Evidence>)
    ensures Direct(first + second) == Direct(first) + Direct(second)
    ensures OutsideHashes(first + second) == OutsideHashes(first) + OutsideHashes(second)
  {
    assert forall e :: e in first + second <==> e in first || e in second;
  }
}
