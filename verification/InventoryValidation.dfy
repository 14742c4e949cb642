/** The independent validator of an inventory, and the builder and validator together. */
module InventoryValidation {
  import opened Results
  import opened Similarity
  import opened SimilarityMeaning
  import opened Ledger
  import opened Exposure
  import opened InventoryReferences
  import opened InventoryBuilding
  import opened InventoryMeaning

  datatype InventoryError =
    | IncompleteEvidence | BadReference | HashOrDedup | ProvenanceLostOrDuplicated | DirectBinding
    | PilotItemBinding | OutsideBinding | ReferenceUnion | ReferencePilotBinding | EvidenceIdentity

  method CheckEvidence(rows: map<string, Row>, evidence: seq<Evidence>) returns (complete: bool, bound: bool)
    ensures complete <==> EvidenceComplete(evidence)
    ensures bound <==> EvidenceBound(rows, evidence)
  {
    complete, bound := true, true;
    for i := 0 to |evidence|
      invariant complete <==> EvidenceComplete(evidence[..i])
      invariant bound <==> EvidenceBound(rows, evidence[..i])
    {
      var e := evidence[i];
      assert evidence[..i + 1] == evidence[..i] + [e];
      complete := complete && KnownCategory(e.category) && KnownCompleteness(e.completeness);
      bound := bound && (e.candId.Some? ==> e.candId.value in rows && Sha(rows[e.candId.value].question) == e.sha);
    }
    assert evidence[..|evidence|] == evidence;
  }

  method CheckReference(normalize: Normalize, rows: map<string, Row>, evidence: seq<Evidence>, r: Reference)
    returns (ok: bool)
    ensures ok <==> ReferenceOk(normalize, rows, evidence, r)
  {
    if !r.complete || normalize(r.question) == "" || r.sha != Sha(r.question) || r.indices == [] {
      return false;
    }
    for k := 0 to |r.indices|
      invariant forall j | 0 <= j < k :: r.indices[j] < |evidence| && evidence[r.indices[j]].sha == r.sha
    {
      if r.indices[k] >= |evidence| || evidence[r.indices[k]].sha != r.sha {
        assert r.indices[k] in r.indices;
        return false;
      }
    }
    for k := 0 to |r.pilotIds|
      invariant forall j | 0 <= j < k :: r.pilotIds[j] in rows && rows[r.pilotIds[j]].question == r.question
    {
      if r.pilotIds[k] !in rows || rows[r.pilotIds[k]].question != r.question {
        assert r.pilotIds[k] in r.pilotIds;
        return false;
      }
    }
    return true;
  }

  /** The loop over the references: each one, and no text twice. */
  method CheckReferences(normalize: Normalize, rows: map<string, Row>, evidence: seq<Evidence>,
      references: seq<Reference>)
    returns (ok: bool, seen: set<string>)
    ensures ok <==> ReferencesOk(normalize, rows, evidence, references) && DistinctQuestions(references)
    ensures ok ==> seen == Questions(references)
  {
    seen := {};
    for i := 0 to |references|
      invariant ReferencesOk(normalize, rows, evidence, references[..i]) && DistinctQuestions(references[..i])
      invariant seen == Questions(references[..i])
    {
      var r := references[i];
      assert references[..i + 1] == references[..i] + [r];
      var good := CheckReference(normalize, rows, evidence, r);
      if !good {
        assert r in references;
        return false, seen;
      }
      if r.question in seen {
        ghost var earlier :| earlier in references[..i] && earlier.question == r.question;
        ghost var j :| 0 <= j < i && references[j] == earlier;
        return false, seen;
      }
      seen := seen + {r.question};
    }
    assert references[..|references|] == references;
    ok := true;
  }

  method CheckItems(rows: map<string, Row>, evidence: seq<Evidence>, items: seq<PilotItem>) returns (ok: bool)
    ensures ok <==> forall item | item in items :: ItemOk(rows, evidence, item)
  {
    for i := 0 to |items|
      invariant forall j | 0 <= j < i :: ItemOk(rows, evidence, items[j])
    {
      var item := items[i];
      if item.candId !in rows || item.sha != Sha(rows[item.candId].question)
        || item.indices != IndicesOf(evidence, Candidate(item.candId))
      {
        assert item in items && !ItemOk(rows, evidence, item);
        return false;
      }
    }
    return true;
  }

  method CheckOutside(normalize: Normalize, evidence: seq<Evidence>, outside: seq<OutsideItem>)
    returns (ok: bool, hashes: set<Sha>)
    ensures ok <==> (forall o | o in outside :: OutsideOk(normalize, evidence, o)) && DistinctOutside(outside)
    ensures ok ==> hashes == set o | o in outside :: o.sha
  {
    hashes := {};
    for i := 0 to |outside|
      invariant forall j | 0 <= j < i :: OutsideOk(normalize, evidence, outside[j])
      invariant DistinctOutside(outside[..i])
      invariant hashes == set o | o in outside[..i] :: o.sha
    {
      var o := outside[i];
      assert outside[..i + 1] == outside[..i] + [o];
      if !o.complete || normalize(o.question) == "" || o.sha != Sha(o.question)
        || o.indices != IndicesOf(evidence, Text(o.sha))
      {
        assert o in outside && !OutsideOk(normalize, evidence, o);
        return false, hashes;
      }
      if o.sha in hashes {
        ghost var earlier :| earlier in outside[..i] && earlier.sha == o.sha;
        ghost var j :| 0 <= j < i && outside[j] == earlier;
        return false, hashes;
      }
      hashes := hashes + {o.sha};
    }
    assert outside[..|outside|] == outside;
    ok := true;
  }

  /** `validate_inventory` */
  method ValidateInventory(normalize: Normalize, population: seq<Row>, inventory: Inventory)
    returns (r: Result<Inventory, InventoryError>)
    ensures r.Ok? <==> ValidInventory(normalize, population, inventory)
    ensures r.Ok? ==> r.value == inventory
  {
    var evidence, rows := inventory.evidence, ById(population);
    var complete, bound := CheckEvidence(rows, evidence);
    if !complete {
      return Err(IncompleteEvidence);
    }
    var ok, seen := CheckReferences(normalize, rows, evidence, inventory.references);
    if !ok {
      return Err(BadReference);
    }
    if AllIndices(inventory.references) != multiset(Range(|evidence|)) {
      return Err(ProvenanceLostOrDuplicated);
    }
    var direct := Direct(evidence);
    if direct != (set item | item in inventory.items :: item.candId) || |inventory.items| != |direct| {
      return Err(DirectBinding);
    }
    ok := CheckItems(rows, evidence, inventory.items);
    if !ok {
      return Err(PilotItemBinding);
    }
    var hashes;
    ok, hashes := CheckOutside(normalize, evidence, inventory.outside);
    if !ok || hashes != OutsideHashes(evidence) {
      return Err(OutsideBinding);
    }
    if seen != (set o | o in inventory.outside :: o.question)
      + (set id | id in direct && id in rows :: rows[id].question) {
      return Err(ReferenceUnion);
    }
    if AllPilotIds(inventory.references) != multiset(direct) {
      return Err(ReferencePilotBinding);
    }
    if !bound {
      return Err(EvidenceIdentity);
    }
    return Ok(inventory);
  }

  /** Any sequence of additions, taken or rejected, ends in an inventory with exactly the evidence of those taken;
      the validator accepts it if and only if each of them is harmless. */
  method BuildAndValidate(normalize: Normalize, population: seq<Row>, additions: seq<Addition>)
    returns (r: Result<Inventory, InventoryError>)
    ensures r.Ok? <==> forall a | a in additions :: Harmless(normalize, population, a)
    ensures r.Ok? ==> ValidInventory(normalize, population, r.value)
    ensures r.Ok? ==> r.value.evidence == EvidenceOf(normalize, population, additions)
    ensures r.Ok? ==> Direct(r.value.evidence) == ExposedBy(normalize, population, additions)
    ensures r.Ok? ==> OutsideHashes(r.value.evidence) == OutsideBy(normalize, population, additions)
  {
    var builder := new InventoryBuilder(normalize, population);
    for i := 0 to |additions|
      invariant builder.Valid() && builder.rows == population && builder.normalize == normalize
      invariant fresh(builder)
      invariant builder.evidence == EvidenceOf(normalize, population, additions[..i])
    {
      var _ := builder.Add(additions[i]);
      assert additions[..i + 1][..i] == additions[..i];
    }
    assert additions[..|additions|] == additions;
    HarmlessArePresentable(normalize, population, additions);
    AllExpose(normalize, population, additions);
    var inventory := builder.Finish();
    r := ValidateInventory(normalize, population, inventory);
  }

  // ---- why additions have to be harmless

  /** A candidate with an empty id that is found through a text other than its own (one that only
      normalizes like it) gets evidence under the wrong hash: no inventory with it is accepted. */
  lemma EmptyIdIsRefused(normalize: Normalize, population: seq<Row>, a: Addition, e: Evidence, inventory: Inventory)
    requires Accepted(normalize, population, a).Ok? && e in Accepted(normalize, population, a).value
    requires e.candId == Some("") && "" in ById(population)
    requires a.question.Some? && a.question.value != ById(population)[""].question
    requires e in inventory.evidence
    ensures !ValidInventory(normalize, population, inventory)
  {
    assert e.sha == Sha(a.question.value);
    assert !EvidenceBound(ById(population), inventory.evidence);
  }

  /** A row without an id, and an addition whose text is another one that normalizes alike. */
  predicate GuessedRow(normalize: Normalize, row: Row, a: Addition) {
    && row.candId == "" && KnownCategory(a.category) && KnownCompleteness(a.completeness) && a.cid.None?
    && a.question.Some? && a.question.value != row.question
    && normalize(a.question.value) == normalize(row.question) != ""
  }

  /** Ids are unique and every text normalizes to something; the addition is taken, yet no inventory that holds its
      evidence is accepted. */
  lemma GuessDoesHarm(normalize: Normalize, row: Row, a: Addition, rows: seq<Row>, inventory: Inventory)
    requires GuessedRow(normalize, row, a) && rows == [row]
    ensures Promised(normalize, rows) && Accepted(normalize, rows, a).Ok? && !Harmless(normalize, rows, a)
    ensures Accepted(normalize, rows, a).value != []
    ensures Accepted(normalize, rows, a).value <= inventory.evidence ==> !ValidInventory(normalize, rows, inventory)
  {
    SingleLookup(row, rows, QuestionOf());
    SingleLookup(row, rows, NormalizedQuestionOf(normalize));
    var ids := Identified(normalize, rows, None, a.question).value.ids;
    assert ids == [""];
    assert !CanExpose(normalize, rows, ids[0], a.question.value);
    var taken := Accepted(normalize, rows, a).value;
    assert taken == [EvidenceFor(rows, a, Some(ids[0]), RegisteredNormalizedEquality)];
    if taken <= inventory.evidence {
      assert inventory.evidence[0] == taken[0];
      EmptyIdIsRefused(normalize, rows, a, taken[0], inventory);
    }
  }

  lemma SingleLookup(row: Row, rows: seq<Row>, key: Row -> string)
    requires rows == [row]
    ensures IdsBy(rows, key) == map[key(row) := [row.candId]] && ById(rows) == map[row.candId := row]
  {
    var none := rows[..|rows| - 1];
    assert none == [] && IdsBy(none, key) == map[] && ById(none) == map[];
    assert IdsBy(rows, key) == Listing(map[], key(row), row.candId);
    assert [] + [row.candId] == [row.candId];
  }

  /** The condition cannot be dropped: such a row and such an addition exist. */
  lemma EmptyIdCanDoHarm(inventory: Inventory)
    ensures var normalize: Normalize := (text: string) => "x";
      var row := Row("", "s", "t", "g", "a", true);
      var a := Addition(ReviewerRequest, AuthoritativeCompleteRecord, None, Some("b"), "");
      && Promised(normalize, [row]) && Accepted(normalize, [row], a).Ok?
      && (Accepted(normalize, [row], a).value <= inventory.evidence ==> !ValidInventory(normalize, [row], inventory))
  {
    var normalize: Normalize := (text: string) => "x";
    var row := Row("", "s", "t", "g", "a", true);
    var a := Addition(ReviewerRequest, AuthoritativeCompleteRecord, None, Some("b"), "");
    assert row.question == "a" && a.question.value == "b" && "a"[0] != "b"[0];
    GuessDoesHarm(normalize, row, a, [row], inventory);
  }

  // ---- the exposure ledger

  datatype LedgerEntry = LedgerEntry(
    candId: string, direct: bool, nativeGroup: bool, nearDuplicate: bool, comparisons: nat)

  predicate NearDuplicate(fold: Fold, row: Row, references: seq<Reference>) {
    exists r | r in references :: Reaches(Cosine(Grams(fold, row.question), Grams(fold, r.question)))
  }

  predicate ExposedGroup(population: seq<Row>, direct: set<string>, row: Row) {
    exists other | other in population ::
      other.candId in direct && (other.source, other.group) == (row.source, row.group)
  }

  function EntryOf(fold: Fold, population: seq<Row>, inventory: Inventory, row: Row): LedgerEntry {
    var direct := set item | item in inventory.items :: item.candId;
    LedgerEntry(row.candId, row.candId in direct, ExposedGroup(population, direct, row),
                NearDuplicate(fold, row, inventory.references), |inventory.references|)
  }

  method SomeSimilar(fold: Fold, row: Row, references: seq<Reference>) returns (near: bool)
    ensures near == NearDuplicate(fold, row, references)
  {
    var vector := Grams(fold, row.question);
    near := false;
    for k := 0 to |references|
      invariant near <==> NearDuplicate(fold, row, references[..k])
    {
      assert references[..k + 1] == references[..k] + [references[k]];
      near := near || Reaches(Cosine(vector, Grams(fold, references[k].question)));
    }
    assert references[..|references|] == references;
  }

  /** `exposure_ledger` */
  method ExposureLedger(fold: Fold, normalize: Normalize, population: seq<Row>, inventory: Inventory)
    returns (r: Result<seq<LedgerEntry>, InventoryError>)
    ensures r.Ok? <==> ValidInventory(normalize, population, inventory)
    ensures r.Ok? ==> |r.value| == |population|
    ensures r.Ok? ==> forall i | 0 <= i < |population| ::
        r.value[i] == EntryOf(fold, population, inventory, population[i])
    ensures r.Ok? ==> forall i | 0 <= i < |population| ::
        EntryMeans(fold, population, inventory.evidence, population[i], r.value[i])
  {
    var checked := ValidateInventory(normalize, population, inventory);
    if checked.Err? {
      return Err(checked.code);
    }
    var result := LedgerEntries(fold, population, inventory);
    forall i | 0 <= i < |population|
      ensures EntryMeans(fold, population, inventory.evidence, population[i], result[i])
    {
      EntryHasMeaning(fold, normalize, population, inventory, population[i]);
    }
    return Ok(result);
  }

  // ---- what an entry means

  /** A text that the evidence exposes: that of an exposed row, or one outside the population. */
  ghost predicate ExposedText(population: seq<Row>, evidence: seq<Evidence>, text: string) {
    || (exists id :: id in Direct(evidence) && id in ById(population) && ById(population)[id].question == text)
    || Sha(text) in OutsideHashes(evidence)
  }

  ghost predicate AlikeExposed(fold: Fold, population: seq<Row>, evidence: seq<Evidence>, row: Row, text: string) {
    ExposedText(population, evidence, text) && Alike(fold(row.question), fold(text))
  }

  ghost predicate ExposedKin(population: seq<Row>, evidence: seq<Evidence>, row: Row, other: Row) {
    other in population && other.candId in Direct(evidence) && other.source == row.source && other.group == row.group
  }

  /** A row is flagged by its own exposure, by that of a row of its group, and by any exposed text that is like its. */
  ghost predicate EntryMeans(fold: Fold, population: seq<Row>, evidence: seq<Evidence>, row: Row, e: LedgerEntry) {
    && e.candId == row.candId && (e.direct <==> row.candId in Direct(evidence))
    && (e.nativeGroup <==> exists other :: ExposedKin(population, evidence, row, other))
    && (e.nearDuplicate <==> exists text :: AlikeExposed(fold, population, evidence, row, text))
  }

  lemma ReferencesAreExposed(normalize: Normalize, population: seq<Row>, inventory: Inventory, text: string)
    requires ValidInventory(normalize, population, inventory)
    ensures ExposedText(population, inventory.evidence, text) <==> text in Questions(inventory.references)
  {
    var rows := ById(population);
    var outside := set o | o in inventory.outside :: o.question;
    var direct := set id | id in Direct(inventory.evidence) && id in rows :: rows[id].question;
    assert Questions(inventory.references) == outside + direct;
    OutsideTextsAreEvidence(normalize, population, inventory, text);
  }

  lemma OutsideTextsAreEvidence(normalize: Normalize, population: seq<Row>, inventory: Inventory, text: string)
    requires ValidInventory(normalize, population, inventory)
    ensures Sha(text) in OutsideHashes(inventory.evidence) <==>
      text in (set o | o in inventory.outside :: o.question)
  {
    var hashes := set item | item in inventory.outside :: item.sha;
    assert hashes == OutsideHashes(inventory.evidence);
    forall o | o in inventory.outside ensures o.sha == Sha(o.question) {
      assert OutsideOk(normalize, inventory.evidence, o);
    }
    if Sha(text) in hashes {
      var o :| o in inventory.outside && o.sha == Sha(text);
      assert o.question == text;
    }
  }

  lemma NearMeansAlike(fold: Fold, normalize: Normalize, population: seq<Row>, inventory: Inventory, row: Row)
    requires ValidInventory(normalize, population, inventory)
    ensures NearDuplicate(fold, row, inventory.references) <==>
      exists text :: AlikeExposed(fold, population, inventory.evidence, row, text)
  {
    if r :| r in inventory.references && Reaches(Cosine(Grams(fold, row.question), Grams(fold, r.question))) {
      SimilarTextsAreAlike(fold, row.question, r.question);
      ReferencesAreExposed(normalize, population, inventory, r.question);
      assert AlikeExposed(fold, population, inventory.evidence, row, r.question);
    }
    if text :| AlikeExposed(fold, population, inventory.evidence, row, text) {
      ReferencesAreExposed(normalize, population, inventory, text);
      var r :| r in inventory.references && r.question == text;
      SimilarTextsAreAlike(fold, row.question, text);
    }
  }

  lemma EntryHasMeaning(fold: Fold, normalize: Normalize, population: seq<Row>, inventory: Inventory, row: Row)
    requires ValidInventory(normalize, population, inventory)
    ensures EntryMeans(fold, population, inventory.evidence, row, EntryOf(fold, population, inventory, row))
  {
    NearMeansAlike(fold, normalize, population, inventory, row);
    var direct := set item | item in inventory.items :: item.candId;
    assert direct == Direct(inventory.evidence);
    GroupMeansKin(population, inventory.evidence, direct, row);
  }

  lemma GroupMeansKin(population: seq<Row>, evidence: seq<Evidence>, direct: set<string>, row: Row)
    requires direct == Direct(evidence)
    ensures ExposedGroup(population, direct, row) <==> exists other :: ExposedKin(population, evidence, row, other)
  {
    if other :| ExposedKin(population, evidence, row, other) {
      assert (other.source, other.group) == (row.source, row.group);
    }
    if other :|
      other in population && other.candId in direct && (other.source, other.group) == (row.source, row.group) {
      assert ExposedKin(population, evidence, row, other);
    }
  }

  method LedgerEntries(fold: Fold, population: seq<Row>, inventory: Inventory) returns (result: seq<LedgerEntry>)
    ensures |result| == |population|
    ensures forall i | 0 <= i < |population| :: result[i] == EntryOf(fold, population, inventory, population[i])
  {
    var direct := set item | item in inventory.items :: item.candId;
    var groups := set row | row in population && row.candId in direct :: (row.source, row.group);
    result := [];
    for i := 0 to |population|
      invariant |result| == i
      invariant forall j | 0 <= j < i :: result[j] == EntryOf(fold, population, inventory, population[j])
    {
      var row := population[i];
      var near := SomeSimilar(fold, row, inventory.references);
      result := result + [LedgerEntry(row.candId, row.candId in direct, (row.source, row.group) in groups, near,
                                      |inventory.references|)];
    }
  }

  /** A directly exposed row is also flagged by its native group and as a near duplicate. */
  lemma DirectExposureIsFlagged(fold: Fold, normalize: Normalize, population: seq<Row>, inventory: Inventory, row: Row)
    requires ValidInventory(normalize, population, inventory) && row in population
    requires forall a, b | a in population && b in population && a.candId == b.candId :: a == b
    ensures var e := EntryOf(fold, population, inventory, row); e.direct ==> e.nativeGroup && e.nearDuplicate
  {
    var rows := ById(population);
    ByIdKeys(population);
    if row.candId in Direct(inventory.evidence) {
      ExposedTextsAreUsable(normalize, population, inventory, row.candId);
      assert rows[row.candId] == row;
      assert row.question in Questions(inventory.references);
      var r :| r in inventory.references && r.question == row.question;
      EqualTextsAreSimilar(fold, row.question, r.question);
    }
  }
}
