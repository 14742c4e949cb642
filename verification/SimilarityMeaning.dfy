/** What the similarity test says of two texts: how many places match, against the unsquared threshold. */
module SimilarityMeaning {
  import opened Basics
  import opened Similarity
  import opened Ledger

  // ---- grams at places of a text

  /** Places where a gram starts: the first one always counts, any other needs four characters. */
  predicate StartsAt(s: string, i: nat) {
    i == 0 || i + 4 <= |s|
  }

  function GramAt(s: string, i: nat): string
    requires StartsAt(s, i)
  {
    s[i..Min(i + 4, |s|)]
  }

  predicate Match(s: string, t: string, i: nat, j: nat) {
    StartsAt(s, i) && StartsAt(t, j) && GramAt(s, i) == GramAt(t, j)
  }

  /** The pairs of places at which two texts have the same gram. */
  ghost function Matches(s: string, t: string): set<(nat, nat)> {
    set i: nat, j: nat | i <= |s| && j <= |t| && Match(s, t, i, j) :: (i, j)
  }

  // ---- the numerator counts matching places

  ghost function EqualPlaces(a: seq<string>, b: seq<string>): set<(nat, nat)> {
    set i: nat, j: nat | i < |a| && j < |b| && a[i] == b[j] :: (i, j)
  }

  lemma {:induction false} SameCounts(keys: set<string>, a: Counter, a': Counter, b: Counter)
    requires forall k | k in keys :: a[k] == a'[k]
    ensures DotOver(keys, a, b) == DotOver(keys, a', b)
    decreases keys
  {
    if keys != {} {
      var k :| k in keys;
      SameCounts(keys - {k}, a, a', b);
      DotRemove(keys, k, a, b);
      DotRemove(keys, k, a', b);
    }
  }

  lemma DotOverMore(a: Counter, b: Counter, all: set<string>)
    requires SharedKeys(a, b) <= all
    ensures Dot(a, b) == DotOver(all, a, b)
  {
    DotExtend(SharedKeys(a, b), all, a, b);
  }

  lemma OneMoreOver(all: set<string>, a: Counter, more: Counter, x: string, b: Counter)
    requires x in all && more[x] == a[x] + 1
    requires forall k | k in all && k != x :: more[k] == a[k]
    ensures DotOver(all, more, b) == DotOver(all, a, b) + b[x]
  {
    DotWithout(all, x, a, b, a[x], b[x]);
    DotWithout(all, x, more, b, a[x] + 1, b[x]);
    SameCounts(all - {x}, a, more, b);
    NextMultiple(a[x], b[x]);
  }

  lemma DotWithout(all: set<string>, x: string, a: Counter, b: Counter, u: nat, v: nat)
    requires x in all && a[x] == u && b[x] == v
    ensures DotOver(all, a, b) == u * v + DotOver(all - {x}, a, b)
  {
    DotRemove(all, x, a, b);
  }

  lemma OneMore(a: Counter, x: string, b: Counter)
    ensures Dot(a + multiset{x}, b) == Dot(a, b) + b[x]
  {
    var more := a + multiset{x};
    var all := Keys(a) + {x};
    DotOverMore(a, b, all);
    DotOverMore(more, b, all);
    OneMoreOver(all, a, more, x, b);
  }

  ghost function Column(b: seq<string>, x: string, i: nat): set<(nat, nat)> {
    set j: nat | j < |b| && b[j] == x :: (i, j)
  }

  lemma {:induction false} ColumnSize(b: seq<string>, x: string, i: nat)
    ensures |Column(b, x, i)| == multiset(b)[x]
  {
    if b == [] {
      assert Column(b, x, i) == {};
    } else {
      var init, n := b[..|b| - 1], |b| - 1;
      assert b == init + [b[n]];
      ColumnSize(init, x, i);
      assert Column(b, x, i) == Column(init, x, i) + (if b[n] == x then {(i, n)} else {});
    }
  }

  lemma {:induction false} DotCountsPlaces(a: seq<string>, b: seq<string>)
    ensures Dot(multiset(a), multiset(b)) == |EqualPlaces(a, b)|
  {
    if a == [] {
      assert EqualPlaces(a, b) == {} && SharedKeys(multiset(a), multiset(b)) == {};
    } else {
      var init, n := a[..|a| - 1], |a| - 1;
      assert a == init + [a[n]];
      DotCountsPlaces(init, b);
      OneMore(multiset(init), a[n], multiset(b));
      ColumnSize(b, a[n], n);
      PlacesSplit(init, a[n], b);
    }
  }

  lemma PlacesSplit(init: seq<string>, x: string, b: seq<string>)
    ensures |EqualPlaces(init + [x], b)| == |EqualPlaces(init, b)| + |Column(b, x, |init|)|
  {
    assert EqualPlaces(init + [x], b) == EqualPlaces(init, b) + Column(b, x, |init|);
  }

  ghost function WindowsOf(s: string): seq<string> {
    seq(Windows(s), i requires 0 <= i < Windows(s) => Window(s, i))
  }

  lemma PlacesAreMatches(s: string, t: string)
    ensures EqualPlaces(WindowsOf(s), WindowsOf(t)) == Matches(s, t)
  {
    forall i: nat, j: nat
      ensures i < |WindowsOf(s)| && j < |WindowsOf(t)| && WindowsOf(s)[i] == WindowsOf(t)[j] <==>
        i <= |s| && j <= |t| && Match(s, t, i, j)
    {
      WindowIsGram(s, i);
      WindowIsGram(t, j);
    }
  }

  lemma WindowIsGram(s: string, i: nat)
    ensures i < Windows(s) <==> StartsAt(s, i)
    ensures i < Windows(s) ==> i <= |s| && Window(s, i) == GramAt(s, i)
  {}

  /** What is divided: the matching places of both texts, by the matching places of each with itself. */
  lemma CosineCountsMatches(fold: Fold, p: string, q: string)
    ensures Cosine(Grams(fold, p), Grams(fold, q)) ==
      Score(|Matches(fold(p), fold(q))|, |Matches(fold(p), fold(p))|, |Matches(fold(q), fold(q))|)
  {
    var s, t := fold(p), fold(q);
    DotOfTexts(fold, p, q);
    DotOfTexts(fold, p, p);
    DotOfTexts(fold, q, q);
    assert SharedKeys(Grams(fold, p), Grams(fold, p)) == Keys(Grams(fold, p));
    assert SharedKeys(Grams(fold, q), Grams(fold, q)) == Keys(Grams(fold, q));
  }

  lemma DotOfTexts(fold: Fold, p: string, q: string)
    ensures Dot(Grams(fold, p), Grams(fold, q)) == |Matches(fold(p), fold(q))|
  {
    var s, t := fold(p), fold(q);
    assert Grams(fold, p) == multiset(WindowsOf(s)) && Grams(fold, q) == multiset(WindowsOf(t));
    DotCountsPlaces(WindowsOf(s), WindowsOf(t));
    PlacesAreMatches(s, t);
  }

  // ---- the threshold, without squares

  /** A positive number whose square is at most n. */
  ghost predicate BelowRoot(q: real, n: nat) {
    q > 0.0 && q * q <= n as real
  }

  /** The numerator is at least 0.9 times the root of the product, stated without taking the root. */
  ghost predicate ReachesNinety(dot: nat, product: nat) {
    product > 0 && forall q | BelowRoot(q, product) :: dot as real >= 0.9 * q
  }

  lemma RealSquareGrows(x: real, y: real)
    requires 0.0 <= x <= y
    ensures x * x <= y * y
  {}

  lemma ScaledSquare(x: real, d: real)
    ensures (10.0 * d) * (10.0 * d) == 100.0 * (d * d)
    ensures (9.0 * x) * (9.0 * x) == 81.0 * (x * x)
  {}

  lemma CastSquare(d: nat)
    ensures (100 * d * d) as real == 100.0 * (d as real * d as real)
  {}

  lemma ReachesBound(dot: nat, product: nat, q: real)
    requires 100 * dot * dot >= 81 * product && BelowRoot(q, product)
    ensures dot as real >= 0.9 * q
  {
    var d := dot as real;
    CastSquare(dot);
    ScaledSquare(q, d);
    if 10.0 * d < 9.0 * q {
      StrictSquares(10.0 * d, 9.0 * q);
    }
  }

  lemma StrictSquares(x: real, y: real)
    requires 0.0 <= x < y
    ensures x * x < y * y
  {
    var gap := y - x;
    assert y * y == x * x + gap * (y + x);
  }

  /** A little above a number whose square is too small there is another one of the kind. */
  lemma Above(a: real, n: real) returns (q: real)
    requires 0.0 <= a && a * a < n
    ensures q > a && q * q <= n
  {
    var gap, slope := n - a * a, 2.0 * a + 1.0;
    var step := gap / slope;
    assert step * slope == gap;
    if step > 1.0 {
      step := 1.0;
      assert slope <= gap;
    }
    q := a + step;
    assert step * step <= step;
    assert q * q == a * a + step * (2.0 * a) + step * step;
    assert step * slope == step * (2.0 * a) + step;
  }

  lemma MissesBound(dot: nat, product: nat) returns (q: real)
    requires 100 * dot * dot < 81 * product
    ensures BelowRoot(q, product) && (dot as real) < 0.9 * q
  {
    var d := dot as real;
    var a := d / 0.9;
    CastSquare(dot);
    assert 81.0 * (a * a) == 100.0 * (d * d);
    q := Above(a, product as real);
  }

  /** The integer test is the test of the program on the exact quotient. */
  lemma ReachesIsNinety(score: Score)
    ensures Reaches(score) <==> ReachesNinety(score.dot, score.left * score.right)
  {
    var product := score.left * score.right;
    if product != 0 {
      if 100 * score.dot * score.dot >= 81 * product {
        forall q | BelowRoot(q, product) ensures score.dot as real >= 0.9 * q {
          ReachesBound(score.dot, product, q);
        }
      } else {
        var q := MissesBound(score.dot, product);
      }
    }
  }

  lemma QuotientAtLeast(d: real, r: real)
    requires r > 0.0
    ensures d / r >= 0.9 <==> d >= 0.9 * r
  {
    var x := d / r;
    assert x * r == d;
    assert x * r - 0.9 * r == (x - 0.9) * r;
  }

  /** With both norms at hand: the quotient reaches 0.9. */
  lemma ReachesIsQuotient(score: Score, x: real, y: real)
    requires x > 0.0 && y > 0.0 && x * x == score.left as real && y * y == score.right as real
    ensures x * y > 0.0
    ensures Reaches(score) <==> score.dot as real / (x * y) >= 0.9
  {
    var r, product := x * y, score.left * score.right;
    assert r * r == (x * x) * (y * y);
    assert product as real == score.left as real * score.right as real;
    RootDecides(score, r, product);
  }

  lemma RootDecides(score: Score, r: real, product: nat)
    requires r > 0.0 && r * r == product as real && product == score.left * score.right
    ensures Reaches(score) <==> score.dot as real / r >= 0.9
  {
    ReachesIsNinety(score);
    QuotientAtLeast(score.dot as real, r);
    assert BelowRoot(r, product);
    if score.dot as real >= 0.9 * r {
      forall q | BelowRoot(q, product) ensures score.dot as real >= 0.9 * q {
        if q > r {
          StrictSquares(r, q);
        }
      }
    }
  }

  // ---- rows

  /** Two texts match at 0.9 of what their norms allow, or more. */
  ghost predicate Alike(s: string, t: string) {
    ReachesNinety(|Matches(s, t)|, |Matches(s, s)| * |Matches(t, t)|)
  }

  /** Two texts of norm x and y: matching places over the product of the norms. */
  lemma AlikeIsQuotient(s: string, t: string, x: real, y: real)
    requires x > 0.0 && y > 0.0
    requires x * x == |Matches(s, s)| as real && y * y == |Matches(t, t)| as real
    ensures x * y > 0.0
    ensures Alike(s, t) <==> |Matches(s, t)| as real / (x * y) >= 0.9
  {
    var score := Score(|Matches(s, t)|, |Matches(s, s)|, |Matches(t, t)|);
    ReachesIsQuotient(score, x, y);
    ReachesIsNinety(score);
  }

  lemma SimilarTextsAreAlike(fold: Fold, p: string, q: string)
    ensures Reaches(Cosine(Grams(fold, p), Grams(fold, q))) <==> Alike(fold(p), fold(q))
  {
    CosineCountsMatches(fold, p, q);
    ReachesIsNinety(Cosine(Grams(fold, p), Grams(fold, q)));
  }

  /** The conflict of two rows: one source and group, or alike texts. */
  lemma ConflictIsAlike(fold: Fold, a: Row, b: Row)
    ensures Conflict(SimilarOf(ScoreBy(fold)), a, b) <==>
      (a.source == b.source && a.group == b.group) || Alike(fold(a.question), fold(b.question))
  {
    SimilarTextsAreAlike(fold, a.question, b.question);
  }
}
