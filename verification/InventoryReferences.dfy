/** Collecting evidence under the texts it exposes, without losing or repeating any of it. */
module InventoryReferences {
  import opened Results
  import opened Ledger
  import opened Exposure

  /** `setdefault` on the text, then the appends to its reference. */
  function Attach(references: seq<Reference>, question: string, ids: seq<string>, indices: seq<nat>): seq<Reference> {
    if references == [] then [Reference(question, Sha(question), true, ids, indices)]
    else if references[0].question == question then
      [references[0].(pilotIds := references[0].pilotIds + ids, indices := references[0].indices + indices)]
        + references[1..]
    else [references[0]] + Attach(references[1..], question, ids, indices)
  }

  function Questions(references: seq<Reference>): set<string> {
    set r | r in references :: r.question
  }

  ghost predicate DistinctQuestions(references: seq<Reference>) {
    forall i, j | 0 <= i < j < |references| :: references[i].question != references[j].question
  }

  lemma {:induction false} AttachTotals(references: seq<Reference>, question: string, ids: seq<string>,
      indices: seq<nat>)
    ensures AllIndices(Attach(references, question, ids, indices)) == AllIndices(references) + multiset(indices)
    ensures AllPilotIds(Attach(references, question, ids, indices)) == AllPilotIds(references) + multiset(ids)
  {
    var after := Attach(references, question, ids, indices);
    if references == [] {
      assert after[1..] == [];
    } else if references[0].question == question {
      assert after[1..] == references[1..];
      assert multiset(after[0].indices) == multiset(references[0].indices) + multiset(indices);
      assert multiset(after[0].pilotIds) == multiset(references[0].pilotIds) + multiset(ids);
    } else {
      assert after[0] == references[0] && after[1..] == Attach(references[1..], question, ids, indices);
      AttachTotals(references[1..], question, ids, indices);
    }
  }

  lemma QuestionsSplit(references: seq<Reference>)
    requires references != []
    ensures Questions(references) == {references[0].question} + Questions(references[1..])
  {
    assert references == [references[0]] + references[1..];
  }

  lemma {:induction false} AttachQuestions(references: seq<Reference>, question: string, ids: seq<string>,
      indices: seq<nat>)
    requires DistinctQuestions(references)
    ensures Questions(Attach(references, question, ids, indices)) == Questions(references) + {question}
    ensures DistinctQuestions(Attach(references, question, ids, indices))
  {
    var after := Attach(references, question, ids, indices);
    if references != [] {
      QuestionsSplit(references);
      QuestionsSplit(after);
      if references[0].question == question {
        assert after[1..] == references[1..];
      } else {
        var tail := Attach(references[1..], question, ids, indices);
        assert after[1..] == tail;
        AttachQuestions(references[1..], question, ids, indices);
        HeadStaysDistinct(references, tail, question);
      }
    }
  }

  lemma HeadStaysDistinct(references: seq<Reference>, tail: seq<Reference>, question: string)
    requires references != [] && DistinctQuestions(references) && references[0].question != question
    requires DistinctQuestions(tail) && Questions(tail) == Questions(references[1..]) + {question}
    ensures DistinctQuestions([references[0]] + tail)
  {
    forall j | 0 <= j < |tail| ensures tail[j].question != references[0].question {
      assert tail[j].question in Questions(tail);
      if tail[j].question in Questions(references[1..]) {
        var r :| r in references[1..] && r.question == tail[j].question;
        var k :| 0 <= k < |references[1..]| && references[1..][k] == r;
        assert references[k + 1] == r;
      }
    }
  }

  ghost predicate ReferencesOk(normalize: Normalize, rows: map<string, Row>, evidence: seq<Evidence>,
      references: seq<Reference>) {
    forall r | r in references :: ReferenceOk(normalize, rows, evidence, r)
  }

  lemma {:induction false} AttachOk(normalize: Normalize, rows: map<string, Row>, evidence: seq<Evidence>,
                                    references: seq<Reference>, question: string, ids: seq<string>, indices: seq<nat>)
    requires ReferencesOk(normalize, rows, evidence, references)
    requires ReferenceOk(normalize, rows, evidence, Reference(question, Sha(question), true, ids, indices))
    ensures ReferencesOk(normalize, rows, evidence, Attach(references, question, ids, indices))
  {
    if references != [] {
      assert references == [references[0]] + references[1..];
      assert ReferenceOk(normalize, rows, evidence, references[0]);
      if references[0].question != question {
        AttachOk(normalize, rows, evidence, references[1..], question, ids, indices);
      }
    }
  }

  // ---- every index exactly once

  ghost function SubjectTotal(evidence: seq<Evidence>, subjects: seq<Subject>): multiset<nat> {
    if subjects == [] then multiset{} else
      SubjectTotal(evidence, subjects[..|subjects| - 1]) + multiset(IndicesOf(evidence, subjects[|subjects| - 1]))
  }

  lemma {:induction false} SubjectTotalCount(evidence: seq<Evidence>, subjects: seq<Subject>, i: nat)
    ensures SubjectTotal(evidence, subjects)[i]
         == if i < |evidence| then multiset(subjects)[SubjectOf(evidence[i])] else 0
  {
    if subjects != [] {
      var n := |subjects| - 1;
      assert subjects == subjects[..n] + [subjects[n]];
      SubjectTotalCount(evidence, subjects[..n], i);
      IndicesCount(evidence, subjects[n], i);
    }
  }

  lemma {:induction false} RangeCount(n: nat, i: nat)
    ensures multiset(Range(n))[i] == if i < n then 1 else 0
  {
    if n > 0 {
      assert Range(n) == Range(n - 1) + [n - 1];
      RangeCount(n - 1, i);
    }
  }

  /** Subjects listed once each, and all of them, cover every index exactly once. */
  lemma SubjectsCover(evidence: seq<Evidence>, subjects: seq<Subject>)
    requires forall i: nat | i < |evidence| :: multiset(subjects)[SubjectOf(evidence[i])] == 1
    ensures SubjectTotal(evidence, subjects) == multiset(Range(|evidence|))
  {
    forall i: nat ensures SubjectTotal(evidence, subjects)[i] == multiset(Range(|evidence|))[i] {
      SubjectTotalCount(evidence, subjects, i);
      RangeCount(|evidence|, i);
    }
  }

  // ---- the state of the collection

  /** References built so far: the subjects whose evidence they hold, the ids and the texts they name. */
  ghost predicate Collects(evidence: seq<Evidence>, references: seq<Reference>, subjects: seq<Subject>,
      ids: seq<string>, texts: set<string>) {
    && DistinctQuestions(references)
    && AllIndices(references) == SubjectTotal(evidence, subjects)
    && AllPilotIds(references) == multiset(ids) && Questions(references) == texts
  }

  lemma CollectsMore(evidence: seq<Evidence>, references: seq<Reference>, subjects: seq<Subject>, ids: seq<string>,
                     texts: set<string>, question: string, newIds: seq<string>, subject: Subject)
    requires Collects(evidence, references, subjects, ids, texts)
    ensures Collects(evidence, Attach(references, question, newIds, IndicesOf(evidence, subject)),
                     subjects + [subject], ids + newIds, texts + {question})
  {
    var indices := IndicesOf(evidence, subject);
    AttachQuestions(references, question, newIds, indices);
    AttachTotals(references, question, newIds, indices);
    assert (subjects + [subject])[..|subjects|] == subjects;
  }

  // ---- what an accepted inventory exposes

  /** An accepted inventory exposes no candidate whose text normalizes to nothing. */
  lemma ExposedTextsAreUsable(normalize: Normalize, population: seq<Row>, inventory: Inventory, id: string)
    requires ValidInventory(normalize, population, inventory) && id in Direct(inventory.evidence)
    ensures id in ById(population) && normalize(ById(population)[id].question) != ""
  {
    var rows := ById(population);
    var e :| e in inventory.evidence && e.candId == Some(id);
    assert rows[id].question in Questions(inventory.references);
    var r :| r in inventory.references && r.question == rows[id].question;
    assert ReferenceOk(normalize, rows, inventory.evidence, r);
  }
}
