/** Ledger rows, the registered strata and the two kinds of conflict. */
module Ledger {
  import opened Similarity

  datatype Row = Row(candId: string, source: string, stratum: string, group: string, question: string,
                     finalPass: bool)

  type StratumKey = (string, string)

  const STRATA: seq<StratumKey> := [
    ("tatqa", "T1_qa"), ("finqa", "T1_qa"), ("finlfqa", "num"),
    ("finlfqa", "interp"), ("finlfqa", "other"), ("finlfqa", "mixed")]

  const QUOTAS: seq<nat> := [4, 4, 4, 6, 4, 2]

  function KeyOf(row: Row): StratumKey { (row.source, row.stratum) }

  predicate HexDigit(c: char) { '0' <= c <= '9' || 'a' <= c <= 'f' }

  /** `c_` and ten hexadecimal digits. */
  predicate IsCandidateId(id: string) {
    |id| == 12 && id[0] == 'c' && id[1] == '_' && forall i | 2 <= i < 12 :: HexDigit(id[i])
  }

  predicate NativeConflict(a: Row, b: Row) {
    (a.source, a.group) == (b.source, b.group)
  }

  /** The similarity score of two rows, and the conflict test made from it. Everything
      that only needs to call them takes them as parameters. */
  type Scorer = (Row, Row) -> Score

  type Rel = (Row, Row) -> bool

  function ScoreBy(fold: Fold): Scorer {
    (a: Row, b: Row) => Cosine(Grams(fold, a.question), Grams(fold, b.question))
  }

  function SimilarOf(score: Scorer): Rel {
    (a: Row, b: Row) => Reaches(score(a, b))
  }

  ghost predicate Symmetric(similar: Rel) {
    forall a, b :: similar(a, b) == similar(b, a)
  }

  lemma SimilarBySymmetric(fold: Fold)
    ensures Symmetric(SimilarOf(ScoreBy(fold)))
  {
    forall a: Row, b: Row ensures SimilarOf(ScoreBy(fold))(a, b) == SimilarOf(ScoreBy(fold))(b, a) {
      CosineSymmetric(Grams(fold, a.question), Grams(fold, b.question));
    }
  }

  predicate Conflict(similar: Rel, a: Row, b: Row) {
    NativeConflict(a, b) || similar(a, b)
  }
}
