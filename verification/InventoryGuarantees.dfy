/** What an accepted inventory guarantees, whoever produced it. */
module InventoryGuarantees {
  import opened Results
  import opened Ledger
  import opened Exposure
  import opened InventoryReferences

  lemma {:induction false} IndexIsSomewhere(references: seq<Reference>, i: nat)
    ensures AllIndices(references)[i] > 0 <==> exists k: nat :: k < |references| && i in references[k].indices
    ensures forall k: nat | k < |references| :: multiset(references[k].indices)[i] <= AllIndices(references)[i]
  {
    if references != [] {
      var rest := references[1..];
      IndexIsSomewhere(rest, i);
      assert i in references[0].indices <==> multiset(references[0].indices)[i] > 0;
      if k: nat :| k < |rest| && i in rest[k].indices {
        assert i in references[k + 1].indices;
      }
      if k: nat :| 0 < k < |references| && i in references[k].indices {
        assert i in rest[k - 1].indices;
      }
      forall k: nat | k < |references| ensures multiset(references[k].indices)[i] <= AllIndices(references)[i] {
        if k > 0 {
          assert references[k] == rest[k - 1];
        }
      }
    }
  }

  lemma RangeOnce(n: nat, i: nat)
    ensures multiset(Range(n))[i] == if i < n then 1 else 0
  {
    if n > 0 {
      assert Range(n) == Range(n - 1) + [n - 1];
      RangeOnce(n - 1, i);
    }
  }

  /** The references partition the evidence by its text: each holds exactly the evidence with its hash, once each. */
  lemma ReferencesPartition(normalize: Normalize, population: seq<Row>, inventory: Inventory, k: nat, i: nat)
    requires ValidInventory(normalize, population, inventory) && k < |inventory.references|
    ensures i in inventory.references[k].indices <==>
      i < |inventory.evidence| && inventory.evidence[i].sha == Sha(inventory.references[k].question)
    ensures multiset(inventory.references[k].indices)[i] <= 1
  {
    var references, evidence := inventory.references, inventory.evidence;
    IndexIsSomewhere(references, i);
    RangeOnce(|evidence|, i);
    assert ReferenceOk(normalize, ById(population), evidence, references[k]);
    if i < |evidence| && evidence[i].sha == Sha(references[k].question) {
      var other: nat :| other < |references| && i in references[other].indices;
      assert ReferenceOk(normalize, ById(population), evidence, references[other]);
      assert references[other].question == references[k].question;
    }
  }

  /** Every piece of evidence stands in exactly one reference. */
  lemma EvidenceIsReferenced(normalize: Normalize, population: seq<Row>, inventory: Inventory, i: nat)
    returns (k: nat)
    requires ValidInventory(normalize, population, inventory) && i < |inventory.evidence|
    ensures k < |inventory.references| && i in inventory.references[k].indices
    ensures forall other: nat | other < |inventory.references| && i in inventory.references[other].indices :: other == k
  {
    var references := inventory.references;
    IndexIsSomewhere(references, i);
    RangeOnce(|inventory.evidence|, i);
    k :| k < |references| && i in references[k].indices;
    forall other: nat | other < |references| && i in references[other].indices ensures other == k {
      ReferencesPartition(normalize, population, inventory, k, i);
      ReferencesPartition(normalize, population, inventory, other, i);
      assert references[other].question == references[k].question;
    }
  }

  lemma {:induction false} IdIsSomewhere(references: seq<Reference>, id: string)
    ensures AllPilotIds(references)[id] > 0 <==> exists k: nat :: k < |references| && id in references[k].pilotIds
    ensures forall k: nat | k < |references| :: multiset(references[k].pilotIds)[id] <= AllPilotIds(references)[id]
  {
    if references != [] {
      var rest := references[1..];
      IdIsSomewhere(rest, id);
      assert id in references[0].pilotIds <==> multiset(references[0].pilotIds)[id] > 0;
      if k: nat :| k < |rest| && id in rest[k].pilotIds {
        assert id in references[k + 1].pilotIds;
      }
      if k: nat :| 0 < k < |references| && id in references[k].pilotIds {
        assert id in rest[k - 1].pilotIds;
      }
      forall k: nat | k < |references| ensures multiset(references[k].pilotIds)[id] <= AllPilotIds(references)[id] {
        if k > 0 {
          assert references[k] == rest[k - 1];
        }
      }
    }
  }

  /** A reference names exactly the exposed candidates that have its text, once each, and its text is usable. */
  lemma ReferenceNamesCandidates(normalize: Normalize, population: seq<Row>, inventory: Inventory, k: nat, id: string)
    requires ValidInventory(normalize, population, inventory) && k < |inventory.references|
    ensures normalize(inventory.references[k].question) != ""
    ensures id in inventory.references[k].pilotIds <==>
      && (exists e :: e in inventory.evidence && e.candId == Some(id))
      && id in ById(population) && ById(population)[id].question == inventory.references[k].question
    ensures multiset(inventory.references[k].pilotIds)[id] <= 1
  {
    var references, direct := inventory.references, Direct(inventory.evidence);
    assert ReferencesCover(ById(population), inventory);
    NamesFrom(normalize, ById(population), inventory.evidence, references, direct, k, id);
  }

  lemma NamesFrom(normalize: Normalize, rows: map<string, Row>, evidence: seq<Evidence>, references: seq<Reference>,
                  direct: set<string>, k: nat, id: string)
    requires DistinctQuestions(references) && AllPilotIds(references) == multiset(direct) && k < |references|
    requires forall r | r in references :: ReferenceOk(normalize, rows, evidence, r)
    ensures normalize(references[k].question) != ""
    ensures id in references[k].pilotIds <==>
      id in direct && id in rows && rows[id].question == references[k].question
    ensures multiset(references[k].pilotIds)[id] <= 1
  {
    IdIsSomewhere(references, id);
    assert ReferenceOk(normalize, rows, evidence, references[k]);
    assert AllPilotIds(references)[id] == if id in direct then 1 else 0;
    if id in direct && id in rows && rows[id].question == references[k].question {
      var other: nat :| other < |references| && id in references[other].pilotIds;
      assert ReferenceOk(normalize, rows, evidence, references[other]);
      assert references[other].question == references[k].question;
    }
  }

  /** Every exposed candidate has an item with exactly the evidence that names it and the hash of its own text. */
  lemma CandidateHasItem(normalize: Normalize, population: seq<Row>, inventory: Inventory, id: string)
    returns (item: PilotItem)
    requires ValidInventory(normalize, population, inventory)
    requires exists e :: e in inventory.evidence && e.candId == Some(id)
    ensures item in inventory.items && item.candId == id
    ensures id in ById(population) && item.sha == Sha(ById(population)[id].question)
    ensures forall i: nat :: i in item.indices <==> i < |inventory.evidence| && inventory.evidence[i].candId == Some(id)
    ensures forall e | e in inventory.evidence && e.candId == Some(id) :: e.sha == item.sha
  {
    var named := set other | other in inventory.items :: other.candId;
    assert id in Direct(inventory.evidence) && named == Direct(inventory.evidence);
    item :| item in inventory.items && item.candId == id;
    assert ItemOk(ById(population), inventory.evidence, item);
    forall i: nat
      ensures i in item.indices <==> i < |inventory.evidence| && inventory.evidence[i].candId == Some(id)
    {
      IndicesMembers(inventory.evidence, Candidate(id), i);
    }
  }

  lemma {:induction false} NamesAtMost(items: seq<PilotItem>)
    ensures |set item | item in items :: item.candId| <= |items|
    ensures |set item | item in items :: item.candId| == |items| ==>
      forall a: nat, b: nat | a < b < |items| :: items[a].candId != items[b].candId
  {
    var names := set item | item in items :: item.candId;
    if items == [] {
      assert names == {};
    } else {
      var init, last := items[..|items| - 1], items[|items| - 1];
      var before := set item | item in init :: item.candId;
      assert items == init + [last];
      NamesAtMost(init);
      assert names == before + {last.candId};
      if last.candId in before {
        assert names == before;
      }
      forall a: nat, b: nat | a < b < |items| && |names| == |items| ensures items[a].candId != items[b].candId {
        assert last.candId !in before;
        assert items[a] == init[a] && init[a] in init;
      }
    }
  }

  /** No candidate is listed twice, and none without evidence. */
  lemma ItemsAreDistinct(normalize: Normalize, population: seq<Row>, inventory: Inventory, a: nat, b: nat)
    requires ValidInventory(normalize, population, inventory) && a < b < |inventory.items|
    ensures inventory.items[a].candId != inventory.items[b].candId
    ensures exists e :: e in inventory.evidence && e.candId == Some(inventory.items[a].candId)
  {
    NamesAtMost(inventory.items);
    var named := set item | item in inventory.items :: item.candId;
    assert named == Direct(inventory.evidence) && inventory.items[a].candId in named;
  }

  /** Every text outside the population that some evidence gives has an entry with exactly that evidence. */
  lemma TextHasEntry(normalize: Normalize, population: seq<Row>, inventory: Inventory, text: string)
    returns (entry: OutsideItem)
    requires ValidInventory(normalize, population, inventory)
    requires exists e :: e in inventory.evidence && e.candId.None? && e.sha == Sha(text)
    ensures entry in inventory.outside && entry.question == text && normalize(text) != ""
    ensures forall i: nat :: i in entry.indices <==>
      i < |inventory.evidence| && inventory.evidence[i].candId.None? && inventory.evidence[i].sha == Sha(text)
  {
    var hashes := set item | item in inventory.outside :: item.sha;
    assert Sha(text) in OutsideHashes(inventory.evidence) && hashes == OutsideHashes(inventory.evidence);
    entry :| entry in inventory.outside && entry.sha == Sha(text);
    assert OutsideOk(normalize, inventory.evidence, entry);
    forall i: nat
      ensures i in entry.indices <==>
        i < |inventory.evidence| && inventory.evidence[i].candId.None? && inventory.evidence[i].sha == Sha(text)
    {
      IndicesMembers(inventory.evidence, Text(Sha(text)), i);
    }
  }
}
