/** Small facts about numbers and lists that several components share. */
module Basics {

  function Min(a: int, b: int): int {
    if a <= b then a else b
  }

  function Max(a: int, b: int): int {
    if a >= b then a else b
  }

  lemma MulGrows(a: int, b: int, c: int)
    requires a <= b && 0 <= c
    ensures a * c <= b * c
  {}

  lemma NextMultiple(u: int, v: int)
    ensures (u + 1) * v == u * v + v
  {}

  lemma SquareIsNonNegative(a: int)
    ensures a * a >= 0
  {}

  /** A list without repetition. */
  predicate Distinct<T(==)>(s: seq<T>) {
    forall i, j | 0 <= i < j < |s| :: s[i] != s[j]
  }

  /** A strictly increasing list. */
  predicate Increasing(s: seq<int>) {
    forall i, j | 0 <= i < j < |s| :: s[i] < s[j]
  }
}
