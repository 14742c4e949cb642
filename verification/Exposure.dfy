/** The exposure inventory: what it consists of and what its validator demands.
    Question hashes are symbolic, so equal hashes have equal texts. */
module Exposure {
  import opened Results
  import opened Ledger

  datatype Sha = Sha(preimage: string)

  type Normalize = string -> string

  datatype Category =
    | HistoricalTrialPacket | RemovedControl | PlanningDocumentDisclosure | WorkHistoryDisclosure | OwnerAudit
    | ReviewerRequest | OtherDocumentedExposure | UnregisteredCategory(name: string)

  datatype Completeness =
    | AuthoritativeCompleteRecord | AcceptedExactRecovery | CanonicalIdBinding | OtherCompleteness(name: string)

  datatype Resolution = CandidateId | ExactOriginalQuestion | RegisteredNormalizedEquality | OutsidePilotFullText

  datatype Evidence = Evidence(category: Category, completeness: Completeness, candId: Option<string>, sha: Sha,
                               resolution: Resolution, note: string)

  datatype PilotItem = PilotItem(candId: string, sha: Sha, indices: seq<nat>)

  datatype OutsideItem = OutsideItem(question: string, sha: Sha, complete: bool, indices: seq<nat>)

  datatype Reference = Reference(question: string, sha: Sha, complete: bool, pilotIds: seq<string>, indices: seq<nat>)

  datatype Inventory = Inventory(items: seq<PilotItem>, outside: seq<OutsideItem>, references: seq<Reference>,
                                 evidence: seq<Evidence>)

  /** `{row["cand_id"]: row for row in population}`: the last row of an id wins. */
  function ById(population: seq<Row>): map<string, Row> {
    if population == [] then map[] else
      ById(population[..|population| - 1])[population[|population| - 1].candId := population[|population| - 1]]
  }

  lemma {:induction false} ByIdKeys(population: seq<Row>)
    ensures forall id :: id in ById(population) <==> exists k :: 0 <= k < |population| && population[k].candId == id
    ensures forall id | id in ById(population) :: ById(population)[id] in population
    ensures forall id | id in ById(population) :: ById(population)[id].candId == id
  {
    if population != [] {
      var n := |population| - 1;
      assert population == population[..n] + [population[n]];
      ByIdKeys(population[..n]);
      forall id ensures id in ById(population) <==> exists k :: 0 <= k < |population| && population[k].candId == id {
        if id in ById(population[..n]) {
          var k :| 0 <= k < n && population[..n][k].candId == id;
          assert population[k].candId == id;
        }
        if k :| 0 <= k < |population| && population[k].candId == id {
          if k < n { assert population[..n][k].candId == id; }
        }
      }
    }
  }

  predicate KnownCategory(c: Category) { !c.UnregisteredCategory? }

  predicate KnownCompleteness(c: Completeness) { !c.OtherCompleteness? }

  // ---- evidence indices by what the evidence is about

  /** A candidate, or a text outside the pilot. */
  datatype Subject = Candidate(id: string) | Text(sha: Sha)

  function SubjectOf(e: Evidence): Subject {
    if e.candId.Some? then Candidate(e.candId.value) else Text(e.sha)
  }

  /** `[i for i, e in enumerate(evidence) if e is about the subject]` */
  function IndicesOf(evidence: seq<Evidence>, subject: Subject): seq<nat> {
    if evidence == [] then [] else
      var n := |evidence| - 1;
      IndicesOf(evidence[..n], subject) + (if SubjectOf(evidence[n]) == subject then [n] else [])
  }

  lemma IndicesAppend(evidence: seq<Evidence>, e: Evidence, subject: Subject)
    ensures IndicesOf(evidence + [e], subject)
         == IndicesOf(evidence, subject) + (if SubjectOf(e) == subject then [|evidence|] else [])
  {
    assert (evidence + [e])[..|evidence|] == evidence;
  }

  /** Every index is listed once, under the subject of its evidence and no other. */
  lemma {:induction false} IndicesCount(evidence: seq<Evidence>, subject: Subject, i: nat)
    ensures multiset(IndicesOf(evidence, subject))[i]
         == if i < |evidence| && SubjectOf(evidence[i]) == subject then 1 else 0
  {
    if evidence != [] {
      IndicesCount(evidence[..|evidence| - 1], subject, i);
    }
  }

  lemma IndicesMembers(evidence: seq<Evidence>, subject: Subject, i: nat)
    ensures i in IndicesOf(evidence, subject) <==> i < |evidence| && SubjectOf(evidence[i]) == subject
  {
    IndicesCount(evidence, subject, i);
    assert i in IndicesOf(evidence, subject) <==> multiset(IndicesOf(evidence, subject))[i] > 0;
  }

  function AllIndices(references: seq<Reference>): multiset<nat> {
    if references == [] then multiset{} else multiset(references[0].indices) + AllIndices(references[1..])
  }

  function AllPilotIds(references: seq<Reference>): multiset<string> {
    if references == [] then multiset{} else multiset(references[0].pilotIds) + AllPilotIds(references[1..])
  }

  // ---- what the validator demands

  ghost predicate EvidenceComplete(evidence: seq<Evidence>) {
    forall e | e in evidence :: KnownCategory(e.category) && KnownCompleteness(e.completeness)
  }

  ghost predicate ReferenceOk(normalize: Normalize, rows: map<string, Row>, evidence: seq<Evidence>, r: Reference) {
    && r.complete && normalize(r.question) != "" && r.sha == Sha(r.question) && r.indices != []
    && (forall i | i in r.indices :: i < |evidence| && evidence[i].sha == r.sha)
    && (forall id | id in r.pilotIds :: id in rows && rows[id].question == r.question)
  }

  ghost predicate ItemOk(rows: map<string, Row>, evidence: seq<Evidence>, item: PilotItem) {
    item.candId in rows && item.sha == Sha(rows[item.candId].question)
    && item.indices == IndicesOf(evidence, Candidate(item.candId))
  }

  ghost predicate OutsideOk(normalize: Normalize, evidence: seq<Evidence>, item: OutsideItem) {
    item.complete && normalize(item.question) != "" && item.sha == Sha(item.question)
    && item.indices == IndicesOf(evidence, Text(item.sha))
  }

  function Direct(evidence: seq<Evidence>): set<string> {
    set e | e in evidence && e.candId.Some? :: e.candId.value
  }

  function OutsideHashes(evidence: seq<Evidence>): set<Sha> {
    set e | e in evidence && e.candId.None? :: e.sha
  }

  function Range(n: nat): seq<nat> { seq(n, i => i) }

  ghost predicate EvidenceBound(rows: map<string, Row>, evidence: seq<Evidence>) {
    forall e | e in evidence && e.candId.Some? ::
      e.candId.value in rows && Sha(rows[e.candId.value].question) == e.sha
  }

  /** No evidence is lost or listed twice, and the references are exactly the exposed texts. */
  ghost predicate ReferencesCover(rows: map<string, Row>, inventory: Inventory) {
    && (forall i, j | 0 <= i < j < |inventory.references| ::
          inventory.references[i].question != inventory.references[j].question)
    && AllIndices(inventory.references) == multiset(Range(|inventory.evidence|))
    && AllPilotIds(inventory.references) == multiset(Direct(inventory.evidence))
    && (set r | r in inventory.references :: r.question)
       == (set o | o in inventory.outside :: o.question)
          + (set id | id in Direct(inventory.evidence) && id in rows :: rows[id].question)
  }

  ghost predicate ItemsCover(inventory: Inventory) {
    && (set item | item in inventory.items :: item.candId) == Direct(inventory.evidence)
    && |inventory.items| == |Direct(inventory.evidence)|
    && (forall i, j | 0 <= i < j < |inventory.outside| :: inventory.outside[i].sha != inventory.outside[j].sha)
    && (set item | item in inventory.outside :: item.sha) == OutsideHashes(inventory.evidence)
  }

  /** `validate_inventory` accepts. */
  ghost predicate ValidInventory(normalize: Normalize, population: seq<Row>, inventory: Inventory) {
    var rows := ById(population);
    && EvidenceComplete(inventory.evidence)
    && (forall r | r in inventory.references :: ReferenceOk(normalize, rows, inventory.evidence, r))
    && (forall item | item in inventory.items :: ItemOk(rows, inventory.evidence, item))
    && (forall item | item in inventory.outside :: OutsideOk(normalize, inventory.evidence, item))
    && ReferencesCover(rows, inventory) && ItemsCover(inventory) && EvidenceBound(rows, inventory.evidence)
  }
}
