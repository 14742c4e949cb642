/** The incremental inventory builder. */
module InventoryBuilding {
  import opened Basics
  import opened Results
  import opened Orders
  import opened Ledger
  import opened Exposure
  import opened InventoryReferences

  // ---- lookup by text

  /** The ids of the rows with a given key, in ledger order. */
  function IdsBy(rows: seq<Row>, key: Row -> string): map<string, seq<string>> {
    if rows == [] then map[] else
      var before, last := IdsBy(rows[..|rows| - 1], key), rows[|rows| - 1];
      before[key(last) := (if key(last) in before then before[key(last)] else []) + [last.candId]]
  }

  lemma {:induction false} IdsByFaithful(rows: seq<Row>, key: Row -> string, q: string)
    ensures q in IdsBy(rows, key) <==> exists row :: row in rows && key(row) == q
    ensures q in IdsBy(rows, key) ==> IdsBy(rows, key)[q] != []
    ensures q in IdsBy(rows, key) ==>
      forall id | id in IdsBy(rows, key)[q] :: exists row :: row in rows && row.candId == id && key(row) == q
    ensures forall row | row in rows && key(row) == q :: q in IdsBy(rows, key) && row.candId in IdsBy(rows, key)[q]
  {
    if rows != [] {
      var n := |rows| - 1;
      assert rows == rows[..n] + [rows[n]];
      IdsByFaithful(rows[..n], key, q);
    }
  }

  function QuestionOf(): Row -> string { (row: Row) => row.question }

  function NormalizedQuestionOf(normalize: Normalize): Row -> string { (row: Row) => normalize(row.question) }

  // ---- the state of the builder

  /** A text that belongs to no row of the population. */
  ghost predicate OutsideText(normalize: Normalize, rows: seq<Row>, q: string) {
    normalize(q) != "" && forall row | row in rows :: row.question != q
  }

  ghost predicate EvidenceOk(normalize: Normalize, rows: seq<Row>, e: Evidence) {
    && KnownCategory(e.category) && KnownCompleteness(e.completeness)
    && (e.candId.Some? ==> e.candId.value in ById(rows))
    && (e.candId.Some? && e.candId.value != "" ==> e.sha == Sha(ById(rows)[e.candId.value].question))
    && (e.candId.None? ==> OutsideText(normalize, rows, e.sha.preimage))
  }

  ghost predicate OutsideItemOk(normalize: Normalize, rows: seq<Row>, evidence: seq<Evidence>, o: OutsideItem) {
    && o.complete && o.sha == Sha(o.question) && OutsideText(normalize, rows, o.question)
    && o.indices == IndicesOf(evidence, Text(o.sha)) && o.indices != []
  }

  ghost predicate DistinctOutside(outside: seq<OutsideItem>) {
    forall i, j | 0 <= i < j < |outside| :: outside[i].sha != outside[j].sha
  }

  ghost predicate Listed(outside: seq<OutsideItem>, sha: Sha) {
    exists o :: o in outside && o.sha == sha
  }

  /** What every sequence of additions keeps. */
  ghost predicate BuilderOk(normalize: Normalize, rows: seq<Row>, evidence: seq<Evidence>, outside: seq<OutsideItem>) {
    && (forall e | e in evidence :: EvidenceOk(normalize, rows, e))
    && (forall o | o in outside :: OutsideItemOk(normalize, rows, evidence, o))
    && DistinctOutside(outside)
    && (forall e | e in evidence && e.candId.None? :: Listed(outside, e.sha))
  }

  /** Adding evidence about a candidate leaves the outside texts alone. */
  lemma CandidateKeepsBuilder(normalize: Normalize, rows: seq<Row>, evidence: seq<Evidence>, outside: seq<OutsideItem>,
                              e: Evidence)
    requires BuilderOk(normalize, rows, evidence, outside) && EvidenceOk(normalize, rows, e) && e.candId.Some?
    ensures BuilderOk(normalize, rows, evidence + [e], outside)
  {
    forall o | o in outside ensures OutsideItemOk(normalize, rows, evidence + [e], o) {
      assert OutsideItemOk(normalize, rows, evidence, o);
      IndicesAppend(evidence, e, Text(o.sha));
    }
  }

  /** `setdefault` followed by the append of the new index. */
  function Noted(outside: seq<OutsideItem>, question: string, index: nat): seq<OutsideItem> {
    if outside == [] then [OutsideItem(question, Sha(question), true, [index])]
    else if outside[0].sha == Sha(question) then [outside[0].(indices := outside[0].indices + [index])] + outside[1..]
    else [outside[0]] + Noted(outside[1..], question, index)
  }

  lemma {:induction false} NotedMembers(outside: seq<OutsideItem>, question: string, index: nat)
    requires DistinctOutside(outside)
    ensures DistinctOutside(Noted(outside, question, index))
    ensures forall o | o in Noted(outside, question, index) ::
      || (o in outside && o.sha != Sha(question))
      || (o.sha == Sha(question) && !Listed(outside, o.sha) && o == OutsideItem(question, Sha(question), true, [index]))
      || (exists p :: p in outside && p.sha == Sha(question) && o == p.(indices := p.indices + [index]))
    ensures forall sha :: Listed(Noted(outside, question, index), sha) <==> Listed(outside, sha) || sha == Sha(question)
  {
    var result := Noted(outside, question, index);
    if outside == [] {
      assert result[0] in result;
    } else {
      var rest := outside[1..];
      assert outside == [outside[0]] + rest;
      if outside[0].sha == Sha(question) {
        assert result[0] == outside[0].(indices := outside[0].indices + [index]) && result[1..] == rest;
        assert result == [result[0]] + rest;
        assert forall o | o in rest :: o.sha != Sha(question);
        forall sha ensures Listed(result, sha) <==> Listed(outside, sha) || sha == Sha(question) {
          ListedSplit(outside, sha);
          ListedSplit(result, sha);
        }
      } else {
        NotedMembers(rest, question, index);
        assert result == [outside[0]] + Noted(rest, question, index);
        forall sha ensures Listed(result, sha) <==> Listed(outside, sha) || sha == Sha(question) {
          ListedSplit(outside, sha);
          ListedSplit(result, sha);
        }
        NotedHeadDistinct(outside, Noted(rest, question, index), question);
      }
    }
  }

  lemma ListedSplit(outside: seq<OutsideItem>, sha: Sha)
    requires outside != []
    ensures Listed(outside, sha) <==> outside[0].sha == sha || Listed(outside[1..], sha)
  {
    assert outside == [outside[0]] + outside[1..];
  }

  lemma NotedHeadDistinct(outside: seq<OutsideItem>, tail: seq<OutsideItem>, question: string)
    requires outside != [] && DistinctOutside(outside) && DistinctOutside(tail) && outside[0].sha != Sha(question)
    requires forall sha :: Listed(tail, sha) <==> Listed(outside[1..], sha) || sha == Sha(question)
    ensures DistinctOutside([outside[0]] + tail)
  {
    forall j | 0 <= j < |tail| ensures tail[j].sha != outside[0].sha {
      assert Listed(tail, tail[j].sha);
      if Listed(outside[1..], tail[j].sha) {
        var o :| o in outside[1..] && o.sha == tail[j].sha;
        var k :| 0 <= k < |outside[1..]| && outside[1..][k] == o;
        assert outside[k + 1].sha != outside[0].sha;
      }
    }
  }

  /** Adding evidence about an outside text under its own entry. */
  lemma OutsideKeepsBuilder(normalize: Normalize, rows: seq<Row>, evidence: seq<Evidence>, outside: seq<OutsideItem>,
                            e: Evidence)
    requires BuilderOk(normalize, rows, evidence, outside) && EvidenceOk(normalize, rows, e) && e.candId.None?
    ensures BuilderOk(normalize, rows, evidence + [e], Noted(outside, e.sha.preimage, |evidence|))
  {
    var q, n := e.sha.preimage, |evidence|;
    var after := Noted(outside, q, n);
    NotedMembers(outside, q, n);
    forall o | o in after ensures OutsideItemOk(normalize, rows, evidence + [e], o) {
      IndicesAppend(evidence, e, Text(o.sha));
      if o in outside && o.sha != Sha(q) {
        assert OutsideItemOk(normalize, rows, evidence, o);
      } else if p :| p in outside && p.sha == Sha(q) && o == p.(indices := p.indices + [n]) {
        assert OutsideItemOk(normalize, rows, evidence, p);
      } else {
        if IndicesOf(evidence, Text(o.sha)) != [] {
          IndexedIsListed(normalize, rows, evidence, outside, o.sha);
        }
      }
    }
  }

  lemma IndexedIsListed(normalize: Normalize, rows: seq<Row>, evidence: seq<Evidence>, outside: seq<OutsideItem>,
      sha: Sha)
    requires BuilderOk(normalize, rows, evidence, outside) && IndicesOf(evidence, Text(sha)) != []
    ensures Listed(outside, sha)
  {
    var i := IndicesOf(evidence, Text(sha))[0];
    IndicesMembers(evidence, Text(sha), i);
    assert evidence[i] in evidence && evidence[i].candId.None? && evidence[i].sha == sha;
  }

  // ---- the builder

  datatype AddError =
    | UnknownExposureCategory | IncompleteExposureReference | ExposureUnknownId | ExposureIdentityMismatch
    | ExposureUnusableQuestion | MissingQuestionText

  /** One documented exposure, by id, by text, or by both. */
  datatype Addition = Addition(category: Category, completeness: Completeness, cid: Option<string>,
                               question: Option<string>, note: string)

  datatype Found = Found(ids: seq<string>, resolution: Resolution)

  /** Which candidates an addition is about: an id wins over a text, an exact text over a
      normalized one, and a text that matches nothing is outside the pilot. */
  function Identified(normalize: Normalize, rows: seq<Row>, cid: Option<string>, question: Option<string>)
    : Result<Found, AddError>
  {
    if cid.Some? then
      if cid.value !in ById(rows) then Err(ExposureUnknownId)
      else if question.Some? && Sha(question.value) != Sha(ById(rows)[cid.value].question) then
        Err(ExposureIdentityMismatch)
      else Ok(Found([cid.value], CandidateId))
    else if question.None? || normalize(question.value) == "" then Err(ExposureUnusableQuestion)
    else
      var text := question.value;
      if text in IdsBy(rows, QuestionOf()) then Ok(Found(IdsBy(rows, QuestionOf())[text], ExactOriginalQuestion))
      else if normalize(text) in IdsBy(rows, NormalizedQuestionOf(normalize)) then
        Ok(Found(IdsBy(rows, NormalizedQuestionOf(normalize))[normalize(text)], RegisteredNormalizedEquality))
      else Ok(Found([], OutsidePilotFullText))
  }

  lemma IdentifiedFacts(normalize: Normalize, rows: seq<Row>, cid: Option<string>, question: Option<string>)
    requires Identified(normalize, rows, cid, question).Ok?
    ensures var ids := Identified(normalize, rows, cid, question).value.ids;
      && (forall id | id in ids :: id in ById(rows))
      && (ids == [] ==> question.Some? && OutsideText(normalize, rows, question.value))
      && (question.None? ==> cid.Some? && ids == [cid.value])
  {
    ByIdKeys(rows);
    RowIdsAreKeys(rows);
    if cid.None? {
      var text := question.value;
      IdsByFaithful(rows, QuestionOf(), text);
      IdsByFaithful(rows, NormalizedQuestionOf(normalize), normalize(text));
      assert text !in IdsBy(rows, QuestionOf()) ==> forall row | row in rows :: QuestionOf()(row) != text;
    }
  }

  /** The evidence for one item of an addition. An empty id is not true in a condition, so its
      evidence carries the hash of the given text. */
  function EvidenceFor(rows: seq<Row>, a: Addition, item: Option<string>, resolution: Resolution): Evidence {
    var text := if item.Some? && item.value != "" && item.value in ById(rows) then ById(rows)[item.value].question
      else a.question.GetOr("");
    Evidence(a.category, a.completeness, item, Sha(text), resolution, a.note)
  }

  function EvidenceForAll(rows: seq<Row>, a: Addition, ids: seq<string>, resolution: Resolution): seq<Evidence> {
    seq(|ids|, i requires 0 <= i < |ids| => EvidenceFor(rows, a, Some(ids[i]), resolution))
  }

  /** Whether an addition is taken, and with which evidence. */
  function Accepted(normalize: Normalize, rows: seq<Row>, a: Addition): Result<seq<Evidence>, AddError> {
    if !KnownCategory(a.category) then Err(UnknownExposureCategory)
    else if !KnownCompleteness(a.completeness) then Err(IncompleteExposureReference)
    else match Identified(normalize, rows, a.cid, a.question)
      case Err(code) => Err(code)
      case Ok(Found(ids, resolution)) =>
        if ids == [] then Ok([EvidenceFor(rows, a, None, resolution)])
        else if ids == [""] && a.question.None? then Err(MissingQuestionText)
        else Ok(EvidenceForAll(rows, a, ids, resolution))
  }

  /** The evidence of all additions that are taken, in their order. */
  function EvidenceOf(normalize: Normalize, rows: seq<Row>, additions: seq<Addition>): seq<Evidence> {
    if additions == [] then []
    else
      var last := Accepted(normalize, rows, additions[|additions| - 1]);
      EvidenceOf(normalize, rows, additions[..|additions| - 1]) + (if last.Ok? then last.value else [])
  }

  class InventoryBuilder {
    const normalize: Normalize
    const rows: seq<Row>
    var population: map<string, Row>
    var exact: map<string, seq<string>>
    var normalized: map<string, seq<string>>
    var evidence: seq<Evidence>
    var outside: seq<OutsideItem>

    ghost predicate Valid()
      reads this
    {
      && population == ById(rows)
      && exact == IdsBy(rows, QuestionOf())
      && normalized == IdsBy(rows, NormalizedQuestionOf(normalize))
      && BuilderOk(normalize, rows, evidence, outside)
    }

    constructor (normalize: Normalize, rows: seq<Row>)
      ensures Valid() && this.normalize == normalize && this.rows == rows && evidence == [] && outside == []
    {
      this.normalize, this.rows := normalize, rows;
      population, exact, normalized := map[], map[], map[];
      evidence, outside := [], [];
      new;
      for i := 0 to |rows|
        invariant population == ById(rows[..i])
        invariant exact == IdsBy(rows[..i], QuestionOf())
        invariant normalized == IdsBy(rows[..i], NormalizedQuestionOf(normalize))
        invariant evidence == [] && outside == []
      {
        var row := rows[i];
        IndexStep(normalize, rows, i);
        population := population[row.candId := row];
        exact := exact[row.question := (if row.question in exact then exact[row.question] else []) + [row.candId]];
        var text := normalize(row.question);
        normalized := normalized[text := (if text in normalized then normalized[text] else []) + [row.candId]];
      }
      assert rows[..|rows|] == rows;
    }

    /** One item per exposed candidate, and the references of the candidates. */
    method FinishCandidates(direct: seq<string>) returns (items: seq<PilotItem>, references: seq<Reference>)
      requires population == ById(rows) && forall k | 0 <= k < |direct| :: direct[k] in population
      ensures |items| == |direct|
      ensures forall k | 0 <= k < |direct| :: items[k] == ItemFor(rows, evidence, direct[k])
      ensures references == CandidateReferences(rows, evidence, direct, |direct|)
    {
      items, references := [], [];
      for k := 0 to |direct|
        invariant |items| == k
        invariant forall j | 0 <= j < k :: items[j] == ItemFor(rows, evidence, direct[j])
        invariant references == CandidateReferences(rows, evidence, direct, k)
      {
        var row := population[direct[k]];
        var indices := IndicesOf(evidence, Candidate(direct[k]));
        items := items + [PilotItem(direct[k], Sha(row.question), indices)];
        references := Attach(references, row.question, [direct[k]], indices);
      }
    }

    /** The evidence about texts outside the population joins the references of those texts. */
    method FinishOutside(known: seq<Reference>) returns (references: seq<Reference>)
      ensures references == OutsideReferences(known, outside, |outside|)
    {
      references := known;
      for k := 0 to |outside|
        invariant references == OutsideReferences(known, outside, k)
      {
        references := Attach(references, outside[k].question, [], outside[k].indices);
      }
    }

    /** `finish`: one item per exposed candidate, and every text with all its evidence. The
        references come in the order in which their texts are met. */
    method Finish() returns (inventory: Inventory)
      requires Valid()
      ensures inventory.evidence == evidence && inventory.outside == outside
      ensures ValidInventory(normalize, rows, inventory) <==> AllPresentable(normalize, rows, evidence)
    {
      var direct := SortStrings(Direct(evidence));
      forall k | 0 <= k < |direct| ensures direct[k] in population {
        assert direct[k] in direct;
        DirectIsKnown(normalize, rows, evidence, outside, direct[k]);
      }
      var items, references := FinishCandidates(direct);
      references := FinishOutside(references);
      inventory := Inventory(items, outside, references, evidence);
      AllCollected(normalize, rows, evidence, outside, direct);
      FinishedIsValid(normalize, rows, evidence, outside, direct, inventory);
    }

    /** `identify` */
    method Identify(cid: Option<string>, question: Option<string>) returns (r: Result<Found, AddError>)
      requires Valid()
      ensures r == Identified(normalize, rows, cid, question)
    {
      if cid.Some? {
        if cid.value !in population {
          return Err(ExposureUnknownId);
        }
        if question.Some? && Sha(question.value) != Sha(population[cid.value].question) {
          return Err(ExposureIdentityMismatch);
        }
        return Ok(Found([cid.value], CandidateId));
      }
      if question.None? || normalize(question.value) == "" {
        return Err(ExposureUnusableQuestion);
      }
      var text := question.value;
      if text in exact {
        return Ok(Found(exact[text], ExactOriginalQuestion));
      }
      if normalize(text) in normalized {
        return Ok(Found(normalized[normalize(text)], RegisteredNormalizedEquality));
      }
      return Ok(Found([], OutsidePilotFullText));
    }

    /** `add`: a rejected addition leaves the builder as it was, any other appends its evidence. */
    method Add(a: Addition) returns (r: Result<seq<Evidence>, AddError>)
      requires Valid()
      modifies this`evidence, this`outside
      ensures Valid() && r == Accepted(normalize, rows, a)
      ensures evidence == old(evidence) + (if r.Ok? then r.value else [])
      ensures r.Err? ==> outside == old(outside)
    {
      if !KnownCategory(a.category) {
        return Err(UnknownExposureCategory);
      }
      if !KnownCompleteness(a.completeness) {
        return Err(IncompleteExposureReference);
      }
      var found := Identify(a.cid, a.question);
      if found.Err? {
        return Err(found.code);
      }
      IdentifiedFacts(normalize, rows, a.cid, a.question);
      var Found(ids, resolution) := found.value;
      if ids == [] {
        var e := EvidenceFor(rows, a, None, resolution);
        OutsideKeepsBuilder(normalize, rows, evidence, outside, e);
        outside := Noted(outside, a.question.value, |evidence|);
        evidence := evidence + [e];
        return Ok([e]);
      }
      if ids == [""] && a.question.None? {
        return Err(MissingQuestionText);
      }
      AddCandidates(a, ids, resolution);
      return Ok(EvidenceForAll(rows, a, ids, resolution));
    }

    /** The loop of `add` over the identified candidates. */
    method AddCandidates(a: Addition, ids: seq<string>, resolution: Resolution)
      requires Valid() && KnownCategory(a.category) && KnownCompleteness(a.completeness)
      requires forall id | id in ids :: id in population
      modifies this`evidence
      ensures Valid() && evidence == old(evidence) + EvidenceForAll(rows, a, ids, resolution)
    {
      for i := 0 to |ids|
        invariant Valid() && evidence == old(evidence) + EvidenceForAll(rows, a, ids[..i], resolution)
      {
        assert ids[i] in ids;
        AddCandidate(a, ids[i], resolution);
        assert ids[..i + 1] == ids[..i] + [ids[i]];
        assert EvidenceForAll(rows, a, ids[..i + 1], resolution)
            == EvidenceForAll(rows, a, ids[..i], resolution) + [EvidenceFor(rows, a, Some(ids[i]), resolution)];
      }
      assert ids[..|ids|] == ids;
    }

    method AddCandidate(a: Addition, id: string, resolution: Resolution)
      requires Valid() && KnownCategory(a.category) && KnownCompleteness(a.completeness) && id in population
      modifies this`evidence
      ensures Valid() && evidence == old(evidence) + [EvidenceFor(rows, a, Some(id), resolution)]
    {
      var sha := Sha(if id != "" then population[id].question else a.question.GetOr(""));
      var e := Evidence(a.category, a.completeness, Some(id), sha, resolution, a.note);
      CandidateKeepsBuilder(normalize, rows, evidence, outside, e);
      evidence := evidence + [e];
    }
  }

  // ---- finishing

  /** Evidence an accepted inventory can hold: a candidate it names has a text that normalizes to something, and
      evidence about the empty id, which is not true in a condition, was given with the very text of that row. */
  predicate Presentable(normalize: Normalize, rows: seq<Row>, e: Evidence) {
    e.candId.Some? ==> CanExpose(normalize, rows, e.candId.value, e.sha.preimage)
  }

  /** A candidate that can be exposed with a given text. */
  predicate CanExpose(normalize: Normalize, rows: seq<Row>, id: string, text: string) {
    id in ById(rows) ==>
      normalize(ById(rows)[id].question) != "" && (id == "" ==> text == ById(rows)[id].question)
  }

  ghost predicate AllPresentable(normalize: Normalize, rows: seq<Row>, evidence: seq<Evidence>) {
    forall e | e in evidence :: Presentable(normalize, rows, e)
  }

  /** An addition that spoils nothing: if it is taken, every candidate it resolves to can be exposed with its text. */
  predicate Harmless(normalize: Normalize, rows: seq<Row>, a: Addition) {
    Accepted(normalize, rows, a).Ok? ==>
      forall id | id in Identified(normalize, rows, a.cid, a.question).value.ids ::
        CanExpose(normalize, rows, id, a.question.GetOr(""))
  }

  /** The evidence of one addition is presentable exactly when the addition is harmless. */
  lemma HarmlessIsPresentable(normalize: Normalize, rows: seq<Row>, a: Addition)
    requires Accepted(normalize, rows, a).Ok?
    ensures AllPresentable(normalize, rows, Accepted(normalize, rows, a).value) <==> Harmless(normalize, rows, a)
  {
    var Found(ids, resolution) := Identified(normalize, rows, a.cid, a.question).value;
    var evidence := Accepted(normalize, rows, a).value;
    if ids != [] {
      forall i: nat | i < |ids|
        ensures Presentable(normalize, rows, evidence[i]) <==> CanExpose(normalize, rows, ids[i], a.question.GetOr(""))
      {
        assert evidence[i] == EvidenceFor(rows, a, Some(ids[i]), resolution);
      }
      if AllPresentable(normalize, rows, evidence) {
        forall id | id in ids ensures CanExpose(normalize, rows, id, a.question.GetOr("")) {
          var i: nat :| i < |ids| && ids[i] == id;
          assert evidence[i] in evidence;
        }
      }
    }
  }

  lemma {:induction false} HarmlessArePresentable(normalize: Normalize, rows: seq<Row>, additions: seq<Addition>)
    ensures AllPresentable(normalize, rows, EvidenceOf(normalize, rows, additions))
       <==> forall a | a in additions :: Harmless(normalize, rows, a)
  {
    if additions != [] {
      var init, last := additions[..|additions| - 1], additions[|additions| - 1];
      assert additions == init + [last];
      HarmlessArePresentable(normalize, rows, init);
      var before := EvidenceOf(normalize, rows, init);
      if Accepted(normalize, rows, last).Ok? {
        HarmlessIsPresentable(normalize, rows, last);
        PresentableParts(normalize, rows, before, Accepted(normalize, rows, last).value);
      }
    }
  }

  lemma PresentableParts(normalize: Normalize, rows: seq<Row>, first: seq<Evidence>, second: seq<Evidence>)
    ensures AllPresentable(normalize, rows, first + second)
       <==> AllPresentable(normalize, rows, first) && AllPresentable(normalize, rows, second)
  {
    if AllPresentable(normalize, rows, first + second) {
      forall e | e in first ensures Presentable(normalize, rows, e) { assert e in first + second; }
      forall e | e in second ensures Presentable(normalize, rows, e) { assert e in first + second; }
    }
  }

  // ---- which populations and additions are harmless

  /** Rows with an id and a text that normalizes to something. */
  ghost predicate Usable(normalize: Normalize, rows: seq<Row>) {
    forall row | row in rows :: row.candId != "" && normalize(row.question) != ""
  }

  /** Over usable rows nothing can go wrong. */
  lemma UsableIsHarmless(normalize: Normalize, rows: seq<Row>, a: Addition)
    requires Usable(normalize, rows)
    ensures Harmless(normalize, rows, a)
  {
    ByIdKeys(rows);
  }

  /** Unique ids and texts that normalize to something: an id may still be the empty string. */
  ghost predicate Promised(normalize: Normalize, rows: seq<Row>) {
    && (forall row, other | row in rows && other in rows && row.candId == other.candId :: row == other)
    && (forall row | row in rows :: normalize(row.question) != "")
  }

  /** A text that is no row's own, but normalizes like that of the row without an id. */
  predicate GuessesEmptyId(normalize: Normalize, rows: seq<Row>, question: Option<string>) {
    && question.Some? && question.value !in IdsBy(rows, QuestionOf())
    && normalize(question.value) in IdsBy(rows, NormalizedQuestionOf(normalize))
    && "" in IdsBy(rows, NormalizedQuestionOf(normalize))[normalize(question.value)]
  }

  /** Over the promised rows an addition does harm exactly when it is taken by such a guess. */
  lemma HarmlessUnlessGuessed(normalize: Normalize, rows: seq<Row>, a: Addition)
    requires Promised(normalize, rows) && Accepted(normalize, rows, a).Ok?
    ensures Harmless(normalize, rows, a) <==> !(a.cid.None? && GuessesEmptyId(normalize, rows, a.question))
  {
    ByIdKeys(rows);
    IdentifiedFacts(normalize, rows, a.cid, a.question);
    if a.cid.None? {
      ResolvesOwnText(normalize, rows, a.question.value);
    }
  }

  /** Over rows with unique ids, an exact text resolves to rows with that text, a guess to rows with another. */
  lemma ResolvesOwnText(normalize: Normalize, rows: seq<Row>, text: string)
    requires Promised(normalize, rows)
    ensures text in IdsBy(rows, QuestionOf()) ==>
      forall id | id in IdsBy(rows, QuestionOf())[text] :: id in ById(rows) && ById(rows)[id].question == text
    ensures text !in IdsBy(rows, QuestionOf()) ==> forall id | id in ById(rows) :: ById(rows)[id].question != text
  {
    ByIdKeys(rows);
    RowIdsAreKeys(rows);
    IdsByFaithful(rows, QuestionOf(), text);
    if text in IdsBy(rows, QuestionOf()) {
      forall id | id in IdsBy(rows, QuestionOf())[text] ensures id in ById(rows) && ById(rows)[id].question == text {
        var row :| row in rows && row.candId == id && QuestionOf()(row) == text;
        assert ById(rows)[id] == row;
      }
    } else {
      forall id | id in ById(rows) ensures ById(rows)[id].question != text {
        assert QuestionOf()(ById(rows)[id]) == ById(rows)[id].question;
      }
    }
  }

  function CandidatesOf(ids: seq<string>): seq<Subject> {
    seq(|ids|, i requires 0 <= i < |ids| => Candidate(ids[i]))
  }

  function TextsOf(outside: seq<OutsideItem>): seq<Subject> {
    seq(|outside|, i requires 0 <= i < |outside| => Text(outside[i].sha))
  }

  function ItemFor(rows: seq<Row>, evidence: seq<Evidence>, id: string): PilotItem
    requires id in ById(rows)
  {
    PilotItem(id, Sha(ById(rows)[id].question), IndicesOf(evidence, Candidate(id)))
  }

  lemma DirectIsKnown(normalize: Normalize, rows: seq<Row>, evidence: seq<Evidence>, outside: seq<OutsideItem>,
      id: string)
    requires BuilderOk(normalize, rows, evidence, outside) && id in Direct(evidence)
    ensures id in ById(rows) && ById(rows)[id] in rows && IndicesOf(evidence, Candidate(id)) != []
  {
    ByIdKeys(rows);
    var e :| e in evidence && e.candId == Some(id);
    var i :| 0 <= i < |evidence| && evidence[i] == e;
    IndicesMembers(evidence, Candidate(id), i);
    assert EvidenceOk(normalize, rows, e);
  }

  /** The evidence about a candidate is evidence about its text. */
  lemma CandidateReference(normalize: Normalize, rows: seq<Row>, evidence: seq<Evidence>, outside: seq<OutsideItem>,
      id: string)
    requires BuilderOk(normalize, rows, evidence, outside) && AllPresentable(normalize, rows, evidence)
    requires id in Direct(evidence)
    ensures id in ById(rows)
    ensures ReferenceOk(normalize, ById(rows), evidence,
      Reference(ById(rows)[id].question, Sha(ById(rows)[id].question), true, [id], IndicesOf(evidence, Candidate(id))))
  {
    DirectIsKnown(normalize, rows, evidence, outside, id);
    var e :| e in evidence && e.candId == Some(id);
    assert Presentable(normalize, rows, e);
    forall i | i in IndicesOf(evidence, Candidate(id))
      ensures i < |evidence| && evidence[i].sha == Sha(ById(rows)[id].question)
    {
      IndicesMembers(evidence, Candidate(id), i);
      assert EvidenceOk(normalize, rows, evidence[i]) && Presentable(normalize, rows, evidence[i]);
    }
  }

  lemma OutsideReference(normalize: Normalize, rows: seq<Row>, evidence: seq<Evidence>, outside: seq<OutsideItem>,
      o: OutsideItem)
    requires BuilderOk(normalize, rows, evidence, outside) && o in outside
    ensures o.indices == IndicesOf(evidence, Text(o.sha))
    ensures ReferenceOk(normalize, ById(rows), evidence,
      Reference(o.question, Sha(o.question), true, [], IndicesOf(evidence, Text(o.sha))))
  {
    assert OutsideItemOk(normalize, rows, evidence, o);
    forall i | i in o.indices ensures i < |evidence| && evidence[i].sha == o.sha {
      IndicesMembers(evidence, Text(o.sha), i);
    }
  }

  lemma {:induction false} SubjectOnce(subjects: seq<Subject>, subject: Subject)
    requires forall i, j | 0 <= i < j < |subjects| :: subjects[i] != subjects[j]
    ensures multiset(subjects)[subject] == if subject in subjects then 1 else 0
  {
    if subjects != [] {
      var n := |subjects| - 1;
      assert subjects == subjects[..n] + [subjects[n]];
      SubjectOnce(subjects[..n], subject);
    }
  }

  lemma SubjectsDiffer(direct: seq<string>, outside: seq<OutsideItem>)
    requires Distinct(direct) && DistinctOutside(outside)
    ensures var subjects := CandidatesOf(direct) + TextsOf(outside);
      forall i, j | 0 <= i < j < |subjects| :: subjects[i] != subjects[j]
  {}

  lemma SubjectListedOnce(normalize: Normalize, rows: seq<Row>, evidence: seq<Evidence>, outside: seq<OutsideItem>,
                          direct: seq<string>, e: Evidence)
    requires BuilderOk(normalize, rows, evidence, outside) && Distinct(direct) && e in evidence
    requires forall id :: id in direct <==> id in Direct(evidence)
    ensures multiset(CandidatesOf(direct) + TextsOf(outside))[SubjectOf(e)] == 1
  {
    var subjects := CandidatesOf(direct) + TextsOf(outside);
    SubjectsDiffer(direct, outside);
    SubjectOnce(subjects, SubjectOf(e));
    if e.candId.Some? {
      assert e.candId.value in Direct(evidence);
      var k :| 0 <= k < |direct| && direct[k] == e.candId.value;
      assert subjects[k] == SubjectOf(e);
    } else {
      var o :| o in outside && o.sha == e.sha;
      var k :| 0 <= k < |outside| && outside[k] == o;
      assert subjects[|direct| + k] == SubjectOf(e);
    }
  }

  /** The candidates and the outside texts are all subjects of the evidence, once each. */
  lemma AllSubjects(normalize: Normalize, rows: seq<Row>, evidence: seq<Evidence>, outside: seq<OutsideItem>,
      direct: seq<string>)
    requires BuilderOk(normalize, rows, evidence, outside) && Distinct(direct)
    requires forall id :: id in direct <==> id in Direct(evidence)
    ensures SubjectTotal(evidence, CandidatesOf(direct) + TextsOf(outside)) == multiset(Range(|evidence|))
  {
    var subjects := CandidatesOf(direct) + TextsOf(outside);
    forall i: nat | i < |evidence| ensures multiset(subjects)[SubjectOf(evidence[i])] == 1 {
      SubjectListedOnce(normalize, rows, evidence, outside, direct, evidence[i]);
    }
    SubjectsCover(evidence, subjects);
  }

  ghost function CandidateTexts(rows: seq<Row>, direct: seq<string>, k: nat): set<string> {
    set j | 0 <= j < k && j < |direct| && direct[j] in ById(rows) :: ById(rows)[direct[j]].question
  }

  ghost function OutsideTexts(outside: seq<OutsideItem>, k: nat): set<string> {
    set j | 0 <= j < k && j < |outside| :: outside[j].question
  }

  /** The loop over the exposed candidates, as a function. */
  function CandidateReferences(rows: seq<Row>, evidence: seq<Evidence>, direct: seq<string>, k: nat): seq<Reference>
    requires k <= |direct|
  {
    if k == 0 then []
    else if direct[k - 1] !in ById(rows) then CandidateReferences(rows, evidence, direct, k - 1)
    else
      Attach(CandidateReferences(rows, evidence, direct, k - 1), ById(rows)[direct[k - 1]].question, [direct[k - 1]],
             IndicesOf(evidence, Candidate(direct[k - 1])))
  }

  /** The loop over the outside texts, as a function. */
  function OutsideReferences(known: seq<Reference>, outside: seq<OutsideItem>, k: nat): seq<Reference>
    requires k <= |outside|
  {
    if k == 0 then known
    else Attach(OutsideReferences(known, outside, k - 1), outside[k - 1].question, [], outside[k - 1].indices)
  }

  /** All references of a finished inventory. */
  function FinalReferences(rows: seq<Row>, evidence: seq<Evidence>, outside: seq<OutsideItem>, direct: seq<string>)
    : seq<Reference>
  {
    OutsideReferences(CandidateReferences(rows, evidence, direct, |direct|), outside, |outside|)
  }

  lemma {:induction false} CandidatesCollect(rows: seq<Row>, evidence: seq<Evidence>, direct: seq<string>, k: nat)
    requires k <= |direct| && forall id | id in direct :: id in ById(rows)
    ensures Collects(evidence, CandidateReferences(rows, evidence, direct, k), CandidatesOf(direct[..k]), direct[..k],
                     CandidateTexts(rows, direct, k))
  {
    if k == 0 {
      assert direct[..0] == [] && CandidateTexts(rows, direct, 0) == {};
    } else {
      var id := direct[k - 1];
      CandidatesCollect(rows, evidence, direct, k - 1);
      CandidatesNext(rows, direct, k - 1);
      CollectsMore(evidence, CandidateReferences(rows, evidence, direct, k - 1), CandidatesOf(direct[..k - 1]),
        direct[..k - 1], CandidateTexts(rows, direct, k - 1), ById(rows)[id].question, [id], Candidate(id));
    }
  }

  lemma {:induction false} OutsideCollects(rows: seq<Row>, evidence: seq<Evidence>, direct: seq<string>,
                                           outside: seq<OutsideItem>, known: seq<Reference>, k: nat)
    requires k <= |outside| && forall o | o in outside :: o.indices == IndicesOf(evidence, Text(o.sha))
    requires Collects(evidence, known, CandidatesOf(direct), direct, CandidateTexts(rows, direct, |direct|))
    ensures Collects(evidence, OutsideReferences(known, outside, k), CandidatesOf(direct) + TextsOf(outside[..k]),
      direct, CandidateTexts(rows, direct, |direct|) + OutsideTexts(outside, k))
  {
    if k == 0 {
      assert CandidatesOf(direct) + TextsOf(outside[..0]) == CandidatesOf(direct);
      assert CandidateTexts(rows, direct, |direct|) + OutsideTexts(outside, 0)
        == CandidateTexts(rows, direct, |direct|);
    } else {
      var o := outside[k - 1];
      OutsideCollects(rows, evidence, direct, outside, known, k - 1);
      OutsideNext(rows, direct, outside, k - 1);
      CollectsMore(evidence, OutsideReferences(known, outside, k - 1), CandidatesOf(direct) + TextsOf(outside[..k - 1]),
        direct, CandidateTexts(rows, direct, |direct|) + OutsideTexts(outside, k - 1), o.question, [], Text(o.sha));
    }
  }

  lemma {:induction false} CandidatesOk(normalize: Normalize, rows: seq<Row>, evidence: seq<Evidence>,
                                        outside: seq<OutsideItem>, direct: seq<string>, k: nat)
    requires BuilderOk(normalize, rows, evidence, outside) && AllPresentable(normalize, rows, evidence)
    requires k <= |direct| && forall id | id in direct :: id in Direct(evidence)
    ensures ReferencesOk(normalize, ById(rows), evidence, CandidateReferences(rows, evidence, direct, k))
  {
    if k > 0 {
      var id := direct[k - 1];
      CandidatesOk(normalize, rows, evidence, outside, direct, k - 1);
      CandidateReference(normalize, rows, evidence, outside, id);
      AttachOk(normalize, ById(rows), evidence, CandidateReferences(rows, evidence, direct, k - 1),
        ById(rows)[id].question, [id], IndicesOf(evidence, Candidate(id)));
    }
  }

  lemma {:induction false} OutsideAreOk(normalize: Normalize, rows: seq<Row>, evidence: seq<Evidence>,
                                        outside: seq<OutsideItem>, known: seq<Reference>, k: nat)
    requires BuilderOk(normalize, rows, evidence, outside) && k <= |outside|
    requires ReferencesOk(normalize, ById(rows), evidence, known)
    ensures ReferencesOk(normalize, ById(rows), evidence, OutsideReferences(known, outside, k))
  {
    if k > 0 {
      var o := outside[k - 1];
      OutsideAreOk(normalize, rows, evidence, outside, known, k - 1);
      OutsideReference(normalize, rows, evidence, outside, o);
      AttachOk(normalize, ById(rows), evidence, OutsideReferences(known, outside, k - 1), o.question, [], o.indices);
    }
  }

  /** The finished references hold every piece of evidence once and are good exactly as far as the evidence is. */
  lemma AllCollected(normalize: Normalize, rows: seq<Row>, evidence: seq<Evidence>, outside: seq<OutsideItem>,
                     direct: seq<string>)
    requires BuilderOk(normalize, rows, evidence, outside) && forall id | id in direct :: id in Direct(evidence)
    ensures CollectsAll(rows, evidence, FinalReferences(rows, evidence, outside, direct), direct, outside)
    ensures AllPresentable(normalize, rows, evidence) ==>
      ReferencesOk(normalize, ById(rows), evidence, FinalReferences(rows, evidence, outside, direct))
  {
    forall id | id in direct ensures id in ById(rows) { DirectIsKnown(normalize, rows, evidence, outside, id); }
    forall o | o in outside ensures o.indices == IndicesOf(evidence, Text(o.sha)) {
      assert OutsideItemOk(normalize, rows, evidence, o);
    }
    CandidatesAllCollect(rows, evidence, direct);
    OutsideCollects(rows, evidence, direct, outside, CandidateReferences(rows, evidence, direct, |direct|), |outside|);
    WholeOutside(outside);
    if AllPresentable(normalize, rows, evidence) {
      CandidatesOk(normalize, rows, evidence, outside, direct, |direct|);
      OutsideAreOk(normalize, rows, evidence, outside, CandidateReferences(rows, evidence, direct, |direct|),
        |outside|);
    }
  }

  lemma CandidatesAllCollect(rows: seq<Row>, evidence: seq<Evidence>, direct: seq<string>)
    requires forall id | id in direct :: id in ById(rows)
    ensures Collects(evidence, CandidateReferences(rows, evidence, direct, |direct|), CandidatesOf(direct), direct,
                     CandidateTexts(rows, direct, |direct|))
  {
    CandidatesCollect(rows, evidence, direct, |direct|);
    assert direct[..|direct|] == direct;
  }

  /** The references hold the evidence of all candidates and all outside texts. */
  ghost predicate CollectsAll(rows: seq<Row>, evidence: seq<Evidence>, references: seq<Reference>, direct: seq<string>,
                              outside: seq<OutsideItem>)
  {
    Collects(evidence, references, CandidatesOf(direct) + TextsOf(outside), direct,
             CandidateTexts(rows, direct, |direct|) + OutsideTexts(outside, |outside|))
  }

  lemma CandidatesNext(rows: seq<Row>, direct: seq<string>, k: nat)
    requires k < |direct| && direct[k] in ById(rows)
    ensures direct[..k + 1] == direct[..k] + [direct[k]]
    ensures CandidatesOf(direct[..k + 1]) == CandidatesOf(direct[..k]) + [Candidate(direct[k])]
    ensures CandidateTexts(rows, direct, k + 1) == CandidateTexts(rows, direct, k) + {ById(rows)[direct[k]].question}
  {}

  lemma OutsideNext(rows: seq<Row>, direct: seq<string>, outside: seq<OutsideItem>, k: nat)
    requires k < |outside|
    ensures CandidatesOf(direct) + TextsOf(outside[..k + 1])
         == CandidatesOf(direct) + TextsOf(outside[..k]) + [Text(outside[k].sha)]
    ensures CandidateTexts(rows, direct, |direct|) + OutsideTexts(outside, k) + {outside[k].question}
         == CandidateTexts(rows, direct, |direct|) + OutsideTexts(outside, k + 1)
    ensures direct + [] == direct
  {
    assert OutsideTexts(outside, k + 1) == OutsideTexts(outside, k) + {outside[k].question};
  }

  lemma FinishedItems(normalize: Normalize, rows: seq<Row>, evidence: seq<Evidence>, direct: seq<string>,
      items: seq<PilotItem>)
    requires Distinct(direct) && (forall id :: id in direct <==> id in Direct(evidence))
    requires |items| == |direct|
    requires forall j | 0 <= j < |direct| :: direct[j] in ById(rows) && items[j] == ItemFor(rows, evidence, direct[j])
    ensures (set item | item in items :: item.candId) == Direct(evidence) && |items| == |Direct(evidence)|
    ensures forall item | item in items :: ItemOk(ById(rows), evidence, item)
  {
    forall id ensures id in (set item | item in items :: item.candId) <==> id in Direct(evidence) {
      if id in Direct(evidence) {
        var j :| 0 <= j < |direct| && direct[j] == id;
        assert items[j] in items;
      }
    }
    DistinctSize(direct);
    assert (set id | id in direct) == Direct(evidence);
  }

  lemma {:induction false} DistinctSize(ids: seq<string>)
    requires Distinct(ids)
    ensures |set id | id in ids| == |ids|
  {
    if ids != [] {
      var n := |ids| - 1;
      assert ids == ids[..n] + [ids[n]];
      DistinctSize(ids[..n]);
      assert (set id | id in ids) == (set id | id in ids[..n]) + {ids[n]};
    }
  }

  lemma FinishedIsValid(normalize: Normalize, rows: seq<Row>, evidence: seq<Evidence>, outside: seq<OutsideItem>,
                        direct: seq<string>, inventory: Inventory)
    requires BuilderOk(normalize, rows, evidence, outside)
    requires Distinct(direct) && (forall id :: id in direct <==> id in Direct(evidence))
    requires inventory.evidence == evidence && inventory.outside == outside && |inventory.items| == |direct|
    requires forall j | 0 <= j < |direct| ::
      direct[j] in ById(rows) && inventory.items[j] == ItemFor(rows, evidence, direct[j])
    requires CollectsAll(rows, evidence, inventory.references, direct, outside)
    requires AllPresentable(normalize, rows, evidence) ==>
      ReferencesOk(normalize, ById(rows), evidence, inventory.references)
    ensures ValidInventory(normalize, rows, inventory) <==> AllPresentable(normalize, rows, evidence)
  {
    if AllPresentable(normalize, rows, evidence) {
      PresentableIsBound(normalize, rows, evidence, outside);
      FinishedItems(normalize, rows, evidence, direct, inventory.items);
      AllSubjects(normalize, rows, evidence, outside, direct);
      forall o | o in outside ensures OutsideOk(normalize, evidence, o) {
        assert OutsideItemOk(normalize, rows, evidence, o);
      }
      FinishedOutside(normalize, rows, evidence, outside);
      FinishedReferences(rows, evidence, outside, direct, inventory);
    }
    if ValidInventory(normalize, rows, inventory) {
      ValidIsPresentable(normalize, rows, inventory);
    }
  }

  lemma PresentableIsBound(normalize: Normalize, rows: seq<Row>, evidence: seq<Evidence>, outside: seq<OutsideItem>)
    requires BuilderOk(normalize, rows, evidence, outside) && AllPresentable(normalize, rows, evidence)
    ensures EvidenceComplete(evidence) && EvidenceBound(ById(rows), evidence)
  {
    forall e | e in evidence && e.candId.Some?
      ensures e.candId.value in ById(rows) && Sha(ById(rows)[e.candId.value].question) == e.sha
    {
      assert EvidenceOk(normalize, rows, e) && Presentable(normalize, rows, e);
    }
  }

  /** Whoever built it, an accepted inventory holds only presentable evidence. */
  lemma ValidIsPresentable(normalize: Normalize, rows: seq<Row>, inventory: Inventory)
    requires ValidInventory(normalize, rows, inventory)
    ensures AllPresentable(normalize, rows, inventory.evidence)
  {
    forall e | e in inventory.evidence ensures Presentable(normalize, rows, e) {
      if e.candId.Some? {
        assert e.candId.value in Direct(inventory.evidence);
        ExposedTextsAreUsable(normalize, rows, inventory, e.candId.value);
      }
    }
  }

  lemma FinishedOutside(normalize: Normalize, rows: seq<Row>, evidence: seq<Evidence>, outside: seq<OutsideItem>)
    requires BuilderOk(normalize, rows, evidence, outside)
    ensures (set o | o in outside :: o.sha) == OutsideHashes(evidence)
  {
    forall sha ensures sha in (set o | o in outside :: o.sha) <==> sha in OutsideHashes(evidence) {
      if sha in (set o | o in outside :: o.sha) {
        var o :| o in outside && o.sha == sha;
        assert OutsideItemOk(normalize, rows, evidence, o);
        var i := o.indices[0];
        IndicesMembers(evidence, Text(sha), i);
        assert evidence[i] in evidence;
      }
      if sha in OutsideHashes(evidence) {
        assert Listed(outside, sha);
      }
    }
  }

  lemma FinishedReferences(rows: seq<Row>, evidence: seq<Evidence>, outside: seq<OutsideItem>, direct: seq<string>,
                           inventory: Inventory)
    requires Distinct(direct) && (forall id :: id in direct <==> id in Direct(evidence))
    requires inventory.evidence == evidence && inventory.outside == outside
    requires CollectsAll(rows, evidence, inventory.references, direct, outside)
    requires SubjectTotal(evidence, CandidatesOf(direct) + TextsOf(outside)) == multiset(Range(|evidence|))
    ensures ReferencesCover(ById(rows), inventory)
  {
    TextsById(rows, evidence, direct);
    TextsOfOutside(outside);
    PilotIdsOnce(evidence, direct);
  }

  lemma WholeOutside(outside: seq<OutsideItem>)
    ensures outside[..|outside|] == outside
  {}

  lemma PilotIdsOnce(evidence: seq<Evidence>, direct: seq<string>)
    requires Distinct(direct) && (forall id :: id in direct <==> id in Direct(evidence))
    ensures multiset(direct) == multiset(Direct(evidence))
  {
    DistinctMultiset(direct);
    assert (set id | id in direct) == Direct(evidence);
  }

  lemma TextsById(rows: seq<Row>, evidence: seq<Evidence>, direct: seq<string>)
    requires forall id :: id in direct <==> id in Direct(evidence)
    ensures CandidateTexts(rows, direct, |direct|)
         == set id | id in Direct(evidence) && id in ById(rows) :: ById(rows)[id].question
  {
    var byId := set id | id in Direct(evidence) && id in ById(rows) :: ById(rows)[id].question;
    forall q ensures q in CandidateTexts(rows, direct, |direct|) <==> q in byId {
      if q in byId {
        var id :| id in Direct(evidence) && id in ById(rows) && ById(rows)[id].question == q;
        var j :| 0 <= j < |direct| && direct[j] == id;
      }
    }
  }

  lemma TextsOfOutside(outside: seq<OutsideItem>)
    ensures OutsideTexts(outside, |outside|) == set o | o in outside :: o.question
  {
    forall o | o in outside ensures o.question in OutsideTexts(outside, |outside|) {
      var j :| 0 <= j < |outside| && outside[j] == o;
    }
  }

  lemma {:induction false} DistinctMultiset(ids: seq<string>)
    requires Distinct(ids)
    ensures multiset(ids) == multiset(set id | id in ids)
  {
    forall id ensures multiset(ids)[id] == multiset(set x | x in ids)[id] { CountOnce(ids, id); }
  }

  lemma {:induction false} CountOnce(ids: seq<string>, id: string)
    requires Distinct(ids)
    ensures multiset(ids)[id] == if id in ids then 1 else 0
  {
    if ids != [] {
      var n := |ids| - 1;
      assert ids == ids[..n] + [ids[n]];
      CountOnce(ids[..n], id);
    }
  }

  /** What one more row adds to the three indexes. */
  lemma IndexStep(normalize: Normalize, rows: seq<Row>, i: nat)
    requires i < |rows|
    ensures ById(rows[..i + 1]) == ById(rows[..i])[rows[i].candId := rows[i]]
    ensures IdsBy(rows[..i + 1], QuestionOf())
      == Listing(IdsBy(rows[..i], QuestionOf()), rows[i].question, rows[i].candId)
    ensures IdsBy(rows[..i + 1], NormalizedQuestionOf(normalize))
         == Listing(IdsBy(rows[..i], NormalizedQuestionOf(normalize)), normalize(rows[i].question), rows[i].candId)
  {
    PrefixStep(rows, i);
  }

  function Listing(m: map<string, seq<string>>, key: string, id: string): map<string, seq<string>> {
    m[key := (if key in m then m[key] else []) + [id]]
  }

  lemma PrefixStep(rows: seq<Row>, i: nat)
    requires i < |rows|
    ensures rows[..i + 1] != [] && rows[..i + 1][|rows[..i + 1]| - 1] == rows[i]
    ensures rows[..i + 1][..|rows[..i + 1]| - 1] == rows[..i]
  {}

  lemma RowIdsAreKeys(rows: seq<Row>)
    ensures forall row | row in rows :: row.candId in ById(rows)
  {
    ByIdKeys(rows);
    forall row | row in rows ensures row.candId in ById(rows) {
      var k :| 0 <= k < |rows| && rows[k] == row;
      assert rows[k].candId == row.candId;
    }
  }
}
