/** Character 4-gram cosine similarity, kept exact: the test `cos >= 0.90` is
    squared so that no root is taken. `fold` stands for lower-casing followed by
    the collapsing of white space; nothing is assumed about it. */
module Similarity {
  import opened Basics
  import opened Orders

  type Fold = string -> string
  type Counter = multiset<string>

  const GRAM := 4

  /** Number of windows: at least one, even for a text shorter than a gram. */
  function Windows(s: string): nat {
    if |s| < GRAM then 1 else |s| - GRAM + 1
  }

  function Window(s: string, i: nat): string
    requires i < Windows(s)
  {
    if |s| < GRAM then s else s[i..i + GRAM]
  }

  function Grams(fold: Fold, question: string): Counter {
    var s := fold(question);
    multiset(seq(Windows(s), i requires 0 <= i < Windows(s) => Window(s, i)))
  }

  /** Sum of a[k] * b[k] over a set of keys, taken in lexicographic order. */
  function DotOver(keys: set<string>, a: Counter, b: Counter): nat {
    if keys == {} then 0 else
      ghost var least := LeastKey(keys);
      assert forall x, y | x in keys && y in keys && IsLeast(x, keys) && IsLeast(y, keys) :: x == y by {
        forall x, y | x in keys && y in keys && IsLeast(x, keys) && IsLeast(y, keys) ensures x == y {
          LexAntisymmetric(x, y);
        }
      }
      var k :| k in keys && IsLeast(k, keys);
      a[k] * b[k] + DotOver(keys - {k}, a, b)
  }

  predicate IsLeast(k: string, keys: set<string>) {
    forall y | y in keys :: LexLE(k, y)
  }

  ghost function LeastKey(keys: set<string>): (k: string)
    requires keys != {}
    ensures k in keys && IsLeast(k, keys)
  {
    LeastStringLemma(keys);
    var k :| k in keys && IsLeast(k, keys);
    k
  }

  lemma LeastStringLemma(keys: set<string>)
    requires keys != {}
    ensures exists k :: k in keys && IsLeast(k, keys)
  {
    var k := LeastStringExists(keys);
    assert k in keys && IsLeast(k, keys);
  }

  function Keys(a: Counter): set<string> {
    set k | k in a
  }

  function SharedKeys(a: Counter, b: Counter): set<string> {
    set k | k in a && k in b
  }

  /** The numerator of `cos`: only keys present on both sides contribute. */
  function Dot(a: Counter, b: Counter): nat {
    DotOver(SharedKeys(a, b), a, b)
  }

  /** The square of one factor of the denominator of `cos`. */
  function NormSquared(a: Counter): nat {
    DotOver(Keys(a), a, a)
  }

  /** What `cos` divides: the numerator and the squares of both factors of the denominator. */
  datatype Score = Score(dot: nat, left: nat, right: nat)

  function Cosine(a: Counter, b: Counter): Score {
    Score(Dot(a, b), NormSquared(a), NormSquared(b))
  }

  /** `score >= 0.90`, with a zero denominator read as similarity 0. */
  predicate Reaches(score: Score) {
    var den := score.left * score.right;
    den != 0 && 100 * score.dot * score.dot >= 81 * den
  }

  // ---- the sum does not depend on the order of its keys

  lemma {:induction false} DotRemove(keys: set<string>, k: string, a: Counter, b: Counter)
    requires k in keys
    ensures DotOver(keys, a, b) == a[k] * b[k] + DotOver(keys - {k}, a, b)
    decreases keys
  {
    ghost var least := LeastKey(keys);
    assert forall x | x in keys && IsLeast(x, keys) :: x == least by {
      forall x | x in keys && IsLeast(x, keys) ensures x == least { LexAntisymmetric(x, least); }
    }
    if k != least {
      DotRemove(keys - {least}, k, a, b);
      assert keys - {least} - {k} == keys - {k} - {least};
      DotRemove(keys - {k}, least, a, b);
    }
  }

  lemma {:induction false} DotExtend(small: set<string>, large: set<string>, a: Counter, b: Counter)
    requires small <= large
    requires forall k | k in large - small :: a[k] * b[k] == 0
    ensures DotOver(small, a, b) == DotOver(large, a, b)
    decreases large - small
  {
    if k: string :| k in large && k !in small {
      DotExtend(small + {k}, large, a, b);
      DotRemove(small + {k}, k, a, b);
      assert small + {k} - {k} == small;
    } else {
      assert small == large;
    }
  }

  lemma {:induction false} DotOverSymmetric(keys: set<string>, a: Counter, b: Counter)
    ensures DotOver(keys, a, b) == DotOver(keys, b, a)
    decreases keys
  {
    if keys != {} {
      var k :| k in keys;
      DotOverSymmetric(keys - {k}, a, b);
      DotRemove(keys, k, a, b);
      DotRemove(keys, k, b, a);
    }
  }

  // ---- Cauchy-Schwarz

  lemma SquareStrict(x: int, y: int)
    requires 0 <= y < x
    ensures y * y < x * x
  {
    MulGrows(y, x, y);
    assert x * y < x * x;
  }

  /** m^2 <= uv implies 2m <= u + v. */
  lemma GeometricMean(m: int, u: int, v: int)
    requires 0 <= m && 0 <= u && 0 <= v && m * m <= u * v
    ensures 2 * m <= u + v
  {
    SquareIsNonNegative(u - v);
    assert (u + v) * (u + v) == (u - v) * (u - v) + 4 * (u * v);
    assert (2 * m) * (2 * m) == 4 * (m * m);
    if u + v < 2 * m {
      SquareStrict(2 * m, u + v);
    }
  }

  lemma RegroupSquares(p: int, x: int, y: int)
    ensures (p * x * y) * (p * x * y) == (p * p) * ((x * x) * (y * y))
  {
    assert (p * x * y) * (p * x * y) == p * x * y * p * x * y;
  }

  lemma RegroupProduct(q: int, r: int, xx: int, yy: int)
    ensures (q * yy) * (r * xx) == (q * r) * (xx * yy)
  {}

  lemma ExpandSquare(p: int, x: int, y: int)
    ensures (p + x * y) * (p + x * y) == p * p + 2 * (p * x * y) + (x * x) * (y * y)
  {
    var w := x * y;
    assert (p + w) * (p + w) == p * p + 2 * (p * w) + w * w;
    assert p * w == p * x * y;
    assert w * w == (x * x) * (y * y);
  }

  lemma ExpandProduct(q: int, r: int, xx: int, yy: int)
    ensures (q + xx) * (r + yy) == q * r + q * yy + r * xx + xx * yy
  {}

  /** One step of the induction: adding a term keeps the inequality. */
  lemma CauchyStep(p: int, q: int, r: int, x: int, y: int)
    requires 0 <= p && 0 <= q && 0 <= r && 0 <= x && 0 <= y
    requires p * p <= q * r
    ensures (p + x * y) * (p + x * y) <= (q + x * x) * (r + y * y)
  {
    var xx, yy, m := x * x, y * y, p * x * y;
    MulGrows(0, x, x);
    MulGrows(0, y, y);
    MulGrows(0, xx, yy);
    MulGrows(0, q, yy);
    MulGrows(0, r, xx);
    MulGrows(0, p, x);
    MulGrows(0, p * x, y);
    RegroupSquares(p, x, y);
    RegroupProduct(q, r, xx, yy);
    MulGrows(p * p, q * r, xx * yy);
    GeometricMean(m, q * yy, r * xx);
    ExpandSquare(p, x, y);
    ExpandProduct(q, r, xx, yy);
  }

  lemma {:induction false} CauchyOver(keys: set<string>, a: Counter, b: Counter)
    ensures DotOver(keys, a, b) * DotOver(keys, a, b) <= DotOver(keys, a, a) * DotOver(keys, b, b)
    decreases keys
  {
    if keys != {} {
      var k :| k in keys;
      CauchyOver(keys - {k}, a, b);
      DotRemove(keys, k, a, b);
      DotRemove(keys, k, a, a);
      DotRemove(keys, k, b, b);
      CauchyStep(DotOver(keys - {k}, a, b), DotOver(keys - {k}, a, a), DotOver(keys - {k}, b, b), a[k], b[k]);
    }
  }

  /** The similarity never exceeds 1: num^2 <= |a|^2 |b|^2. */
  lemma CosineAtMostOne(a: Counter, b: Counter)
    ensures Dot(a, b) * Dot(a, b) <= NormSquared(a) * NormSquared(b)
  {
    var all := Keys(a) + Keys(b);
    DotExtend(SharedKeys(a, b), all, a, b);
    DotExtend(Keys(a), all, a, a);
    DotExtend(Keys(b), all, b, b);
    CauchyOver(all, a, b);
  }

  lemma CosineSymmetric(a: Counter, b: Counter)
    ensures Dot(a, b) == Dot(b, a)
    ensures Reaches(Cosine(a, b)) <==> Reaches(Cosine(b, a))
  {
    assert SharedKeys(a, b) == SharedKeys(b, a);
    DotOverSymmetric(SharedKeys(a, b), a, b);
  }

  lemma FirstGram(fold: Fold, question: string) returns (k: string)
    ensures k in Grams(fold, question)
  {
    var s := fold(question);
    var windows := seq(Windows(s), i requires 0 <= i < Windows(s) => Window(s, i));
    k := windows[0];
    assert k in windows;
  }

  /** Every text has at least one gram, so no norm is zero. */
  lemma GramsHaveNorm(fold: Fold, question: string)
    ensures NormSquared(Grams(fold, question)) > 0
  {
    var g := Grams(fold, question);
    var k := FirstGram(fold, question);
    DotRemove(Keys(g), k, g, g);
    MulGrows(1, g[k], g[k]);
  }

  /** Similarity of a text with itself is exactly 1, hence a conflict. */
  lemma EqualTextsAreSimilar(fold: Fold, p: string, q: string)
    requires fold(p) == fold(q)
    ensures var a, b := Grams(fold, p), Grams(fold, q);
            Dot(a, b) * Dot(a, b) == NormSquared(a) * NormSquared(b) && Reaches(Cosine(a, b))
  {
    GramsHaveNorm(fold, p);
    SelfScore(Grams(fold, p));
  }

  lemma SelfScore(a: Counter)
    requires NormSquared(a) > 0
    ensures Dot(a, a) == NormSquared(a) && Reaches(Cosine(a, a))
  {
    assert SharedKeys(a, a) == Keys(a);
    SquareReaches(NormSquared(a));
  }

  lemma SquareReaches(n: nat)
    requires n > 0
    ensures Reaches(Score(n, n, n))
  {
    MulGrows(1, n, n);
    assert 100 * n * n == 100 * (n * n);
  }
}
