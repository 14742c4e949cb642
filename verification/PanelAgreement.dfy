/** Fleiss' kappa for panels of three raters. */
module PanelAgreement {
  import opened Basics
  import opened Results
  import opened Agreement

  type Panels = seq<seq<Label>>

  predicate ThreeRaters(panels: Panels) {
    forall i: nat | i < |panels| :: |panels[i]| == 3
  }

  predicate PanelsAmong(labels: seq<Label>, panels: Panels) {
    forall i: nat | i < |panels| :: Among(labels, panels[i])
  }

  predicate Unanimous(panel: seq<Label>) {
    forall i: nat | i < |panel| :: panel[i] == panel[0]
  }

  /** The ordered pairs of raters that agree on one item. */
  function Score(labels: seq<Label>, panel: seq<Label>): int {
    Sum(labels, l => Count(panel, l) * (Count(panel, l) - 1))
  }

  function Scores(labels: seq<Label>, panels: Panels): int {
    if panels == [] then 0 else Score(labels, panels[|panels| - 1]) + Scores(labels, panels[..|panels| - 1])
  }

  /** How often a label is given at all. */
  function Total(panels: Panels, l: Label): nat {
    if panels == [] then 0 else Count(panels[|panels| - 1], l) + Total(panels[..|panels| - 1], l)
  }

  function RealSum(labels: seq<Label>, f: Label -> real): real {
    if labels == [] then 0.0 else f(labels[0]) + RealSum(labels[1..], f)
  }

  function Square(x: real): real {
    x * x
  }

  function Fleiss(labels: seq<Label>, panels: Panels): Result<real, Undefined> {
    if !ThreeRaters(panels) then Err(NotThreeRaters)
    else if panels == [] then Err(NoData)
    else
      Corrected(
        Scores(labels, panels) as real / 6.0 / |panels| as real,
        RealSum(labels, l => Square(Total(panels, l) as real / (3 * |panels|) as real)))
  }

  lemma CountThree(panel: seq<Label>, l: Label)
    requires |panel| == 3
    ensures Count(panel, l)
      == (if panel[0] == l then 1 else 0) + (if panel[1] == l then 1 else 0) + (if panel[2] == l then 1 else 0)
  {
    var two, one := panel[..2], panel[..2][..1];
    assert Count(one, l) == if panel[0] == l then 1 else 0;
    assert Count(two, l) == (if panel[1] == l then 1 else 0) + Count(one, l);
  }

  lemma TermValue(c: nat)
    requires c <= 3
    ensures c * (c - 1) == if c == 3 then 6 else if c == 2 then 2 else 0
  {}

  /** Six agreeing pairs when all three agree, two when exactly two do, and none otherwise. */
  lemma ScoreCases(labels: seq<Label>, panel: seq<Label>)
    requires Distinct(labels) && Among(labels, panel) && |panel| == 3
    ensures Score(labels, panel) ==
      if Unanimous(panel) then 6
      else if panel[0] == panel[1] || panel[0] == panel[2] || panel[1] == panel[2] then 2 else 0
  {
    var f := l => Count(panel, l) * (Count(panel, l) - 1);
    forall l: Label
      ensures f(l) == (if Count(panel, l) == 3 then 6 else if Count(panel, l) == 2 then 2 else 0)
      ensures Count(panel, l)
        == (if panel[0] == l then 1 else 0) + (if panel[1] == l then 1 else 0) + (if panel[2] == l then 1 else 0)
    {
      CountThree(panel, l);
      TermValue(Count(panel, l));
    }
    if panel[0] == panel[1] || panel[0] == panel[2] {
      SumAtLeast(labels, f, panel[0]);
    } else if panel[1] == panel[2] {
      SumAtLeast(labels, f, panel[1]);
    } else {
      SumIsZero(labels, f);
    }
  }

  lemma ScoreBound(labels: seq<Label>, panel: seq<Label>)
    requires Distinct(labels) && Among(labels, panel) && |panel| == 3
    ensures 0 <= Score(labels, panel) <= 6 && (Score(labels, panel) == 6 <==> Unanimous(panel))
  {
    ScoreCases(labels, panel);
  }

  predicate AllUnanimous(panels: Panels) {
    forall i: nat | i < |panels| :: Unanimous(panels[i])
  }

  lemma UnanimousLast(panels: Panels)
    requires panels != []
    ensures AllUnanimous(panels) <==> AllUnanimous(panels[..|panels| - 1]) && Unanimous(panels[|panels| - 1])
  {
    var rest := panels[..|panels| - 1];
    assert forall i: nat | i < |panels| :: panels[i] == if i < |rest| then rest[i] else panels[|rest|];
  }

  lemma {:induction false} ScoresBound(labels: seq<Label>, panels: Panels)
    requires Distinct(labels) && PanelsAmong(labels, panels) && ThreeRaters(panels)
    ensures 0 <= Scores(labels, panels) <= 6 * |panels|
    ensures Scores(labels, panels) == 6 * |panels| <==> AllUnanimous(panels)
  {
    if panels != [] {
      var rest := panels[..|panels| - 1];
      UnanimousLast(panels);
      ScoresBound(labels, rest);
      ScoreBound(labels, panels[|rest|]);
    }
  }

  lemma {:induction false} TotalsPartition(labels: seq<Label>, panels: Panels)
    requires Distinct(labels) && PanelsAmong(labels, panels) && ThreeRaters(panels)
    ensures Sum(labels, l => Total(panels, l)) == 3 * |panels|
  {
    if panels == [] {
      SumIsZero(labels, l => Total(panels, l));
    } else {
      var last, rest := panels[|panels| - 1], panels[..|panels| - 1];
      TotalsPartition(labels, rest);
      CountsPartition(labels, last);
      SumAdds(labels, l => Count(last, l), l => Total(rest, l), l => Total(panels, l));
    }
  }

  /** The counts of one label over all items, squared and added. */
  function Power(panels: Panels, l: Label): int {
    if panels == [] then 0
    else Count(panels[|panels| - 1], l) * Count(panels[|panels| - 1], l) + Power(panels[..|panels| - 1], l)
  }

  lemma CauchyIdentity(total: int, power: int, c: int, n: nat)
    requires total * total <= n * power
    ensures n * (power + n * (c * c) - 2 * (total * c)) >= (total - n * c) * (total - n * c)
  {
    var s := total - n * c;
    assert s * s == total * total - 2 * (n * (total * c)) + n * (n * (c * c));
    assert n * (power + n * (c * c) - 2 * (total * c)) == n * power + n * (n * (c * c)) - 2 * (n * (total * c));
  }

  lemma CauchyExpansion(total: int, power: int, c: int, n: nat)
    ensures (n + 1) * (power + c * c) - (total + c) * (total + c)
         == (n * power - total * total) + (power + n * (c * c) - 2 * (total * c))
  {}

  lemma CauchyStep(total: int, power: int, c: int, n: nat)
    requires total * total <= n * power && (n == 0 ==> total == 0 && power == 0)
    ensures (total + c) * (total + c) <= (n + 1) * (power + c * c)
  {
    if n > 0 {
      var gap := power + n * (c * c) - 2 * (total * c);
      CauchyIdentity(total, power, c, n);
      SquareIsNonNegative(total - n * c);
      if gap < 0 {
        MulGrows(gap, -1, n);
      }
      CauchyExpansion(total, power, c, n);
    }
  }

  /** Cauchy and Schwarz over the items, for one label. */
  lemma {:induction false} TotalSquared(panels: Panels, l: Label)
    ensures Total(panels, l) * Total(panels, l) <= |panels| * Power(panels, l)
  {
    if panels != [] {
      var rest := panels[..|panels| - 1];
      TotalSquared(rest, l);
      CauchyStep(Total(rest, l), Power(rest, l), Count(panels[|panels| - 1], l), |rest|);
    }
  }

  lemma Pull(c: int)
    ensures c * c == c * (c - 1) + c
  {}

  lemma {:induction false} PowersAreScores(labels: seq<Label>, panels: Panels)
    requires Distinct(labels) && PanelsAmong(labels, panels) && ThreeRaters(panels)
    ensures Sum(labels, l => Power(panels, l)) == Scores(labels, panels) + 3 * |panels|
  {
    if panels == [] {
      SumIsZero(labels, l => Power(panels, l));
    } else {
      var last, rest := panels[|panels| - 1], panels[..|panels| - 1];
      PowersAreScores(labels, rest);
      CountsPartition(labels, last);
      var square := l => Count(last, l) * Count(last, l);
      forall l: Label ensures square(l) == Count(last, l) * (Count(last, l) - 1) + Count(last, l) {
        Pull(Count(last, l));
      }
      SumAdds(labels, l => Count(last, l) * (Count(last, l) - 1), l => Count(last, l), square);
      SumAdds(labels, square, l => Power(rest, l), l => Power(panels, l));
    }
  }

  function Squares(labels: seq<Label>, panels: Panels): int {
    Sum(labels, l => Total(panels, l) * Total(panels, l))
  }

  lemma SquaresBound(labels: seq<Label>, panels: Panels, n: nat, s: int)
    requires Distinct(labels) && PanelsAmong(labels, panels) && ThreeRaters(panels)
    requires n == |panels| && s == Scores(labels, panels)
    ensures Squares(labels, panels) <= n * (s + 3 * n)
  {
    var square, bound := l => Total(panels, l) * Total(panels, l), l => n * Power(panels, l);
    forall l: Label | l in labels ensures square(l) <= bound(l) {
      TotalSquared(panels, l);
    }
    SumGrows(labels, square, bound);
    SumScales(labels, n, l => Power(panels, l), bound);
    PowersAreScores(labels, panels);
  }

  // ---- when every rating is one label

  ghost predicate OnePanelLabel(panels: Panels) {
    exists l: Label :: ConstantPanels(panels, l)
  }

  predicate ConstantPanels(panels: Panels, l: Label) {
    forall i: nat | i < |panels| :: forall j: nat | j < |panels[i]| :: panels[i][j] == l
  }

  lemma {:induction false} FullTotal(panels: Panels, l: Label)
    requires ThreeRaters(panels)
    ensures Total(panels, l) <= 3 * |panels|
    ensures Total(panels, l) == 3 * |panels| <==> ConstantPanels(panels, l)
  {
    if panels != [] {
      var rest := panels[..|panels| - 1];
      assert forall i: nat | i < |panels| :: panels[i] == if i < |rest| then rest[i] else panels[|rest|];
      FullTotal(rest, l);
      FullCount(panels[|rest|], l);
    }
  }

  lemma CertainSquares(labels: seq<Label>, panels: Panels)
    requires Distinct(labels) && PanelsAmong(labels, panels) && ThreeRaters(panels) && panels != []
    ensures Squares(labels, panels) <= (3 * |panels|) * (3 * |panels|)
    ensures Squares(labels, panels) == (3 * |panels|) * (3 * |panels|) <==> OnePanelLabel(panels)
  {
    var m := 3 * |panels|;
    var total: Label -> int := l => Total(panels, l);
    TotalsPartition(labels, panels);
    forall l: Label
      ensures 0 <= total(l) <= m
      ensures Filled(total, total, m, l) <==> ConstantPanels(panels, l)
    {
      FullTotal(panels, l);
    }
    CertainMarginals(labels, total, total, l => Total(panels, l) * Total(panels, l), m);
    TableBounds(labels, total, total, l => Overlap(total(l), m), l => Total(panels, l) * Total(panels, l), m);
    forall l: Label | ConstantPanels(panels, l) ensures l in labels {
      assert panels[0][0] == l;
    }
  }

  /** The smallest cell two equal marginals allow. */
  function Overlap(total: int, m: int): int {
    if 2 * total <= m then 0 else 2 * total - m
  }

  // ---- the value of Fleiss' kappa

  lemma SquareOfQuotient(t: real, m: real, square: real)
    requires m > 0.0 && square > 0.0 && square == m * m
    ensures Square(t / m) == (t * t) / square
  {
    var x := Divide(t, m);
    SquaresMultiply(x, m, t, square);
    QuotientIs(x * x, square, t * t);
  }

  lemma SquaresMultiply(x: real, m: real, t: real, square: real)
    requires t == x * m && square == m * m
    ensures (x * x) * square == t * t
  {}

  lemma {:induction false} CommonDenominator(labels: seq<Label>, f: Label -> real, g: Label -> int, d: real)
    requires d > 0.0
    requires forall l: Label | l in labels :: f(l) == g(l) as real / d
    ensures RealSum(labels, f) == Sum(labels, g) as real / d
  {
    if labels != [] {
      CommonDenominator(labels[1..], f, g, d);
      QuotientsAdd(g(labels[0]) as real, Sum(labels[1..], g) as real, d);
    }
  }

  lemma QuotientsAdd(a: real, b: real, d: real)
    requires d > 0.0
    ensures a / d + b / d == (a + b) / d
  {
    assert (a / d) * d == a && (b / d) * d == b;
  }

  lemma ExpectedTerm(t: nat, m: nat, square: int)
    requires m > 0 && square == m * m
    ensures square > 0 && Square(t as real / m as real) == (t * t) as real / square as real
  {
    PositiveSquare(m, square);
    CastProduct(t);
    SquareOfQuotient(t as real, m as real, square as real);
  }

  lemma ExpectedForm(labels: seq<Label>, panels: Panels, m: nat, square: int)
    requires m == 3 * |panels| && m > 0 && square == m * m
    ensures square > 0
    ensures RealSum(labels, l => Square(Total(panels, l) as real / (3 * |panels|) as real))
      == Squares(labels, panels) as real / square as real
  {
    PositiveSquare(m, square);
    var f := l => Square(Total(panels, l) as real / (3 * |panels|) as real);
    var g := l => Total(panels, l) * Total(panels, l);
    forall l: Label | l in labels ensures f(l) == g(l) as real / square as real {
      ExpectedTerm(Total(panels, l), m, square);
    }
    CommonDenominator(labels, f, g, square as real);
  }

  lemma PositiveSquare(m: nat, square: int)
    requires m > 0 && square == m * m
    ensures square > 0 && square as real == m as real * m as real
  {}

  lemma CastProduct(t: nat)
    ensures (t * t) as real == t as real * t as real
  {}

  /** The observed agreement over the same denominator. */
  lemma ObservedForm(s: real, n: real, m: real, square: real, product: real)
    requires n > 0.0 && m == 3.0 * n && square > 0.0 && square == m * m && product == s * m
    ensures s / 6.0 / n == (product / 2.0) / square
  {
    var x := Divide(s / 6.0, n);
    ObservedProduct(x, s, n, m, square, product);
    QuotientIs(x, square, product / 2.0);
  }

  lemma ObservedProduct(x: real, s: real, n: real, m: real, square: real, product: real)
    requires m == 3.0 * n && square == m * m && product == s * m && x * n == s / 6.0
    ensures x * square == product / 2.0
  {
    assert x * m == s / 2.0;
    Associates(x, m);
  }

  predicate FleissRangeFor(r: Result<real, Undefined>, certain: bool, full: bool) {
    && (r == Err(DegenerateMarginals) <==> certain)
    && (r.Ok? ==> -0.5 <= r.value <= 1.0 && (r.value == 1.0 <==> full))
  }

  lemma FleissForm(u: real, e: real, square: real, product: real)
    requires square > 0.0 && u == product / 2.0
    requires e <= square && product <= 2.0 * square && 3.0 * e <= product + square
    ensures FleissRangeFor(Corrected(u / square, e / square), e == square, product == 2.0 * square)
  {
    assert -0.5 * (square - e) == e / 2.0 - square / 2.0;
    CorrectedRange(u, e, square, -0.5);
  }

  lemma FleissCasts(n: nat, m: nat, s: int, e: int, square: int, product: int)
    requires n > 0 && m == 3 * n && square == m * m && product == s * m
    requires s <= 6 * n && e <= n * (s + 3 * n)
    ensures square > 0 && square as real == m as real * m as real && product as real == s as real * m as real
    ensures product <= 2 * square && (product == 2 * square <==> s == 6 * n)
    ensures 3 * e <= product + square
  {
    PositiveSquare(m, square);
    MulGrows(s, 2 * m, m);
    if s < 2 * m {
      MulGrows(s + 1, 2 * m, m);
    }
    assert 3 * (n * (s + 3 * n)) == m * (s + m);
  }

  lemma FleissValue(n: nat, m: nat, s: int, e: int, square: int, product: int)
    requires n > 0 && m == 3 * n && square == m * m && product == s * m
    requires s <= 6 * n && e <= square && e <= n * (s + 3 * n)
    ensures square > 0
    ensures FleissRangeFor(Corrected(s as real / 6.0 / n as real, e as real / square as real), e == square, s == 6 * n)
  {
    FleissCasts(n, m, s, e, square, product);
    ObservedForm(s as real, n as real, m as real, square as real, product as real);
    FleissForm(product as real / 2.0, e as real, square as real, product as real);
  }

  lemma FleissOfCounts(labels: seq<Label>, panels: Panels, n: nat, m: nat, s: int, e: int, square: int)
    requires ThreeRaters(panels) && 0 < n == |panels| && m == 3 * n && square == m * m
    requires s == Scores(labels, panels) && e == Squares(labels, panels)
    requires s <= 6 * n && e <= square && e <= n * (s + 3 * n)
    ensures FleissRangeFor(Fleiss(labels, panels), e == square, s == 6 * n)
  {
    ExpectedForm(labels, panels, m, square);
    FleissValue(n, m, s, e, square, s * m);
  }

  /** Fleiss' value for three raters lies in [-1/2, 1] and is 1 exactly when every panel is unanimous; it is
      undefined exactly without data, with other than three raters, and on a single label throughout. */
  lemma FleissRange(labels: seq<Label>, panels: Panels)
    requires Distinct(labels) && PanelsAmong(labels, panels)
    ensures Fleiss(labels, panels) == Err(NotThreeRaters) <==> !ThreeRaters(panels)
    ensures Fleiss(labels, panels) == Err(NoData) <==> panels == []
    ensures Fleiss(labels, panels) == Err(DegenerateMarginals) <==>
      ThreeRaters(panels) && panels != [] && OnePanelLabel(panels)
    ensures Fleiss(labels, panels).Ok? ==> -0.5 <= Fleiss(labels, panels).value <= 1.0
    ensures Fleiss(labels, panels).Ok? ==>
      (Fleiss(labels, panels).value == 1.0 <==> AllUnanimous(panels))
  {
    if ThreeRaters(panels) && panels != [] {
      ScoresBound(labels, panels);
      CertainSquares(labels, panels);
      FleissCorrected(labels, panels, (3 * |panels|) * (3 * |panels|));
    }
  }

  lemma FleissCorrected(labels: seq<Label>, panels: Panels, square: int)
    requires Distinct(labels) && PanelsAmong(labels, panels) && ThreeRaters(panels) && panels != []
    requires square == (3 * |panels|) * (3 * |panels|) && Squares(labels, panels) <= square
    ensures FleissRangeFor(Fleiss(labels, panels), Squares(labels, panels) == square,
      Scores(labels, panels) == 6 * |panels|)
  {
    ScoresBound(labels, panels);
    SquaresBound(labels, panels, |panels|, Scores(labels, panels));
    FleissOfCounts(labels, panels, |panels|, 3 * |panels|, Scores(labels, panels), Squares(labels, panels), square);
  }

  // ---- the value in terms of the ratings

  /** All ratings of all items. */
  ghost function AllRatings(panels: Panels): seq<Label> {
    if panels == [] then [] else AllRatings(panels[..|panels| - 1]) + panels[|panels| - 1]
  }

  lemma {:induction false} CountJoins(a: seq<Label>, b: seq<Label>, l: Label)
    ensures Count(a + b, l) == Count(a, l) + Count(b, l)
  {
    if b == [] {
      assert a + b == a;
    } else {
      assert (a + b)[..|a + b| - 1] == a + b[..|b| - 1];
      CountJoins(a, b[..|b| - 1], l);
    }
  }

  lemma {:induction false} TotalsCount(panels: Panels, l: Label)
    ensures Total(panels, l) == Count(AllRatings(panels), l)
  {
    if panels != [] {
      TotalsCount(panels[..|panels| - 1], l);
      CountJoins(AllRatings(panels[..|panels| - 1]), panels[|panels| - 1], l);
    }
  }

  lemma {:induction false} RatingsAmong(labels: seq<Label>, panels: Panels)
    requires PanelsAmong(labels, panels)
    ensures Among(labels, AllRatings(panels))
  {
    if panels != [] {
      RatingsAmong(labels, panels[..|panels| - 1]);
    }
  }

  /** Expected agreement counts how often two ratings are equal, over all pairs of ratings. */
  lemma SquaresCount(labels: seq<Label>, panels: Panels)
    requires Distinct(labels) && PanelsAmong(labels, panels)
    ensures Squares(labels, panels) == |CrossMatches(AllRatings(panels), AllRatings(panels))|
  {
    var all := AllRatings(panels);
    RatingsAmong(labels, panels);
    ProductsCountMatches(labels, all, all);
    var square, product := l => Total(panels, l) * Total(panels, l), l => Count(all, l) * Count(all, l);
    forall l: Label ensures square(l) == product(l) {
      TotalsCount(panels, l);
    }
    SumScales(labels, 1, product, square);
  }

  lemma FleissValueForm(s: real, n: real, m: real, e: real, square: real, product: real)
    requires n > 0.0 && m == 3.0 * n && square > 0.0 && square == m * m && product == s * m
    requires Corrected(s / 6.0 / n, e / square).Ok?
    ensures Corrected(s / 6.0 / n, e / square).value * (square - e) == product / 2.0 - e
  {
    ObservedForm(s, n, m, square, product);
    CorrectedValue(product / 2.0, e, square);
  }

  lemma FleissValueExact(n: nat, m: nat, s: int, e: int, square: int, product: int)
    requires 0 < n && m == 3 * n && square == m * m && product == s * m
    ensures square > 0
    ensures Solves(Corrected(s as real / 6.0 / n as real, e as real / square as real), square as real - e as real,
      product as real / 2.0 - e as real)
  {
    PositiveSquare(m, square);
    CastProducts(s, m, product);
    if Corrected(s as real / 6.0 / n as real, e as real / square as real).Ok? {
      FleissValueForm(s as real, n as real, m as real, e as real, square as real, product as real);
    }
  }

  lemma {:induction false} FleissCounted(labels: seq<Label>, panels: Panels, n: nat, m: nat, s: int, e: int,
      square: int, product: int)
    requires ThreeRaters(panels) && 0 < n == |panels| && m == 3 * n && square == m * m && product == s * m
    requires s == Scores(labels, panels) && e == Squares(labels, panels)
    ensures Solves(Fleiss(labels, panels), square as real - e as real, product as real / 2.0 - e as real)
  {
    ExpectedForm(labels, panels, m, square);
    FleissValueExact(n, m, s, e, square, product);
  }

  lemma CastProducts(s: int, m: int, product: int)
    requires product == s * m
    ensures product as real == s as real * m as real
  {}

  /** The value, freed of its denominators. With m ratings of all items, s ordered pairs of raters that agree on an item
      and e equal pairs among all ratings, kappa times (m^2 - e) is s * m / 2 - e. */
  lemma {:induction false} FleissIsExact(labels: seq<Label>, panels: Panels, m: nat, e: nat, square: int, product: int)
    requires Distinct(labels) && PanelsAmong(labels, panels) && ThreeRaters(panels) && panels != []
    requires m == 3 * |panels| && e == |CrossMatches(AllRatings(panels), AllRatings(panels))|
    requires square == m * m && product == Scores(labels, panels) * m
    ensures Solves(Fleiss(labels, panels), square as real - e as real, product as real / 2.0 - e as real)
  {
    SquaresCount(labels, panels);
    FleissCounted(labels, panels, |panels|, m, Scores(labels, panels), e, square, product);
  }
}
