/** Cohen's and Fleiss' kappa over a list of labels without repetition, in exact arithmetic. */
module Agreement {
  import opened Basics
  import opened Results

  datatype Label = Label(name: string)

  /** A statistic is undefined for a reason. */
  datatype Undefined = NoData | DegenerateMarginals | NotThreeRaters

  // ---- sums over the labels

  function Sum(labels: seq<Label>, f: Label -> int): int {
    if labels == [] then 0 else f(labels[0]) + Sum(labels[1..], f)
  }

  lemma {:induction false} SumScales(labels: seq<Label>, n: int, f: Label -> int, g: Label -> int)
    requires forall l: Label | l in labels :: g(l) == n * f(l)
    ensures Sum(labels, g) == n * Sum(labels, f)
  {
    if labels != [] {
      SumScales(labels[1..], n, f, g);
    }
  }

  lemma {:induction false} SumGrows(labels: seq<Label>, f: Label -> int, g: Label -> int)
    requires forall l: Label | l in labels :: f(l) <= g(l)
    ensures Sum(labels, f) <= Sum(labels, g)
  {
    if labels != [] {
      SumGrows(labels[1..], f, g);
    }
  }

  lemma {:induction false} SumAdds(labels: seq<Label>, f: Label -> int, g: Label -> int, h: Label -> int)
    requires forall l: Label | l in labels :: h(l) == f(l) + g(l)
    ensures Sum(labels, h) == Sum(labels, f) + Sum(labels, g)
  {
    if labels != [] {
      SumAdds(labels[1..], f, g, h);
    }
  }

  lemma {:induction false} SumIsZero(labels: seq<Label>, f: Label -> int)
    requires forall l: Label | l in labels :: f(l) >= 0
    ensures Sum(labels, f) >= 0
    ensures Sum(labels, f) == 0 <==> forall l: Label | l in labels :: f(l) == 0
  {
    if labels != [] {
      SumIsZero(labels[1..], f);
      assert forall l: Label :: l in labels <==> l == labels[0] || l in labels[1..];
    }
  }

  /** One term against the sum of the others. */
  lemma {:induction false} SumAtLeast(labels: seq<Label>, f: Label -> int, l: Label)
    requires Distinct(labels) && l in labels
    requires forall m: Label | m in labels :: f(m) >= 0
    ensures Sum(labels, f) >= f(l)
    ensures Sum(labels, f) == f(l) <==> forall m: Label | m in labels && m != l :: f(m) == 0
  {
    var rest := labels[1..];
    assert forall m: Label :: m in labels <==> m == labels[0] || m in rest;
    assert labels[0] !in rest;
    SumIsZero(rest, f);
    if l != labels[0] {
      SumAtLeast(rest, f, l);
    }
  }

  // ---- counting

  function Count(ratings: seq<Label>, l: Label): (c: nat)
    ensures c <= |ratings|
  {
    if ratings == [] then 0 else (if ratings[|ratings| - 1] == l then 1 else 0) + Count(ratings[..|ratings| - 1], l)
  }

  predicate Among(labels: seq<Label>, ratings: seq<Label>) {
    forall i: nat | i < |ratings| :: ratings[i] in labels
  }

  lemma {:induction false} CountsPartition(labels: seq<Label>, ratings: seq<Label>)
    requires Distinct(labels) && Among(labels, ratings)
    ensures Sum(labels, l => Count(ratings, l)) == |ratings|
  {
    if ratings == [] {
      SumIsZero(labels, l => Count(ratings, l));
    } else {
      var last, rest := ratings[|ratings| - 1], ratings[..|ratings| - 1];
      assert forall i: nat | i < |rest| :: rest[i] == ratings[i];
      CountsPartition(labels, rest);
      var unit := l => if l == last then 1 else 0;
      SumAtLeast(labels, unit, last);
      SumAdds(labels, unit, l => Count(rest, l), l => Count(ratings, l));
    }
  }

  lemma {:induction false} FullCount(ratings: seq<Label>, l: Label)
    ensures Count(ratings, l) == |ratings| <==> forall i: nat | i < |ratings| :: ratings[i] == l
  {
    if ratings != [] {
      var rest := ratings[..|ratings| - 1];
      FullCount(rest, l);
      assert forall i: nat | i < |ratings| :: ratings[i] == if i < |rest| then rest[i] else ratings[|rest|];
    }
  }

  // ---- Cohen's kappa

  type Pairs = seq<(Label, Label)>

  function Lefts(pairs: Pairs): (r: seq<Label>)
    ensures |r| == |pairs| && forall i: nat | i < |pairs| :: r[i] == pairs[i].0
  {
    seq(|pairs|, i requires 0 <= i < |pairs| => pairs[i].0)
  }

  function Rights(pairs: Pairs): (r: seq<Label>)
    ensures |r| == |pairs| && forall i: nat | i < |pairs| :: r[i] == pairs[i].1
  {
    seq(|pairs|, i requires 0 <= i < |pairs| => pairs[i].1)
  }

  predicate PairsAmong(labels: seq<Label>, pairs: Pairs) {
    forall i: nat | i < |pairs| :: pairs[i].0 in labels && pairs[i].1 in labels
  }

  /** The pairs that agree on one label. */
  function Both(pairs: Pairs, l: Label): (c: nat) {
    if pairs == [] then 0
    else (if pairs[|pairs| - 1] == (l, l) then 1 else 0) + Both(pairs[..|pairs| - 1], l)
  }

  function Agreements(pairs: Pairs): (c: nat)
    ensures c <= |pairs|
  {
    if pairs == [] then 0
    else (if pairs[|pairs| - 1].0 == pairs[|pairs| - 1].1 then 1 else 0) + Agreements(pairs[..|pairs| - 1])
  }

  /** Agreement by chance, times the square of the number of pairs. */
  function Chance(labels: seq<Label>, pairs: Pairs): int {
    Sum(labels, l => Count(Lefts(pairs), l) * Count(Rights(pairs), l))
  }

  function Cohen(labels: seq<Label>, pairs: Pairs): Result<real, Undefined> {
    if pairs == [] then Err(NoData) else
      Corrected(Agreements(pairs) as real / |pairs| as real,
        Chance(labels, pairs) as real / (|pairs| * |pairs|) as real)
  }

  /** Agreement corrected for chance. */
  function Corrected(agreement: real, expected: real): Result<real, Undefined> {
    if expected == 1.0 then Err(DegenerateMarginals) else Ok((agreement - expected) / (1.0 - expected))
  }

  lemma {:induction false} CellBounds(pairs: Pairs, l: Label)
    ensures Both(pairs, l) <= Count(Lefts(pairs), l) && Both(pairs, l) <= Count(Rights(pairs), l)
    ensures Count(Lefts(pairs), l) + Count(Rights(pairs), l) <= |pairs| + Both(pairs, l)
  {
    if pairs != [] {
      var rest := pairs[..|pairs| - 1];
      CellBounds(rest, l);
      assert Lefts(pairs)[..|pairs| - 1] == Lefts(rest) && Rights(pairs)[..|pairs| - 1] == Rights(rest);
    }
  }

  lemma {:induction false} AgreementsPartition(labels: seq<Label>, pairs: Pairs)
    requires Distinct(labels) && PairsAmong(labels, pairs)
    ensures Sum(labels, l => Both(pairs, l)) == Agreements(pairs)
  {
    if pairs == [] {
      SumIsZero(labels, l => Both(pairs, l));
    } else {
      var last, rest := pairs[|pairs| - 1], pairs[..|pairs| - 1];
      assert forall i: nat | i < |rest| :: rest[i] == pairs[i];
      AgreementsPartition(labels, rest);
      var unit := l => if last == (l, l) then 1 else 0;
      if last.0 == last.1 {
        SumAtLeast(labels, unit, last.0);
      } else {
        SumIsZero(labels, unit);
      }
      SumAdds(labels, unit, l => Both(rest, l), l => Both(pairs, l));
    }
  }

  lemma {:induction false} FullAgreement(pairs: Pairs)
    ensures Agreements(pairs) == |pairs| <==> forall i: nat | i < |pairs| :: pairs[i].0 == pairs[i].1
  {
    if pairs != [] {
      var rest := pairs[..|pairs| - 1];
      FullAgreement(rest);
      assert forall i: nat | i < |pairs| :: pairs[i] == if i < |rest| then rest[i] else pairs[|rest|];
    }
  }

  // ---- the chance term

  lemma ZeroProduct(a: int, b: int)
    requires a * b == 0
    ensures a == 0 || b == 0
  {}

  lemma FourProducts(a: int, b: int)
    ensures 4 * (a * b) <= (a + b) * (a + b)
  {
    assert (a + b) * (a + b) == 4 * (a * b) + (a - b) * (a - b);
  }

  lemma CellIdentities(left: int, right: int, both: int, n: int)
    ensures (n + both) * (left + right) == n * left + n * right + (left + right) * both
    ensures 2 * n * both == 2 * (n * both)
    ensures right * left == left * right
  {}

  lemma MarginalProduct(left: int, right: int, n: int)
    requires 0 <= left && 0 <= right <= n
    ensures 0 <= left * right <= n * left
  {
    MulGrows(right, n, left);
  }

  /** The product of the marginals of one label, against its cell. */
  lemma CellProduct(left: int, right: int, both: int, n: int)
    requires 0 <= both <= left <= n && both <= right <= n && left + right <= n + both
    ensures 4 * (left * right) <= n * left + n * right + 2 * (n * both)
    ensures 0 <= left * right <= n * left
  {
    FourProducts(left, right);
    MulGrows(left + right, n + both, left + right);
    MulGrows(left + right, 2 * n, both);
    CellIdentities(left, right, both, n);
    MarginalProduct(left, right, n);
  }

  /** The margins and the diagonal of a table of n pairs. */
  ghost predicate Table(labels: seq<Label>, left: Label -> int, right: Label -> int, both: Label -> int, n: int) {
    && Sum(labels, left) == n && Sum(labels, right) == n
    && forall l: Label | l in labels ::
         0 <= both(l) <= left(l) <= n && both(l) <= right(l) <= n && left(l) + right(l) <= n + both(l)
  }

  lemma TableBounds(labels: seq<Label>, left: Label -> int, right: Label -> int, both: Label -> int,
                    product: Label -> int, n: int)
    requires Table(labels, left, right, both, n)
    requires forall l: Label | l in labels :: product(l) == left(l) * right(l)
    ensures 0 <= Sum(labels, product) <= n * n
    ensures 2 * Sum(labels, product) <= n * n + n * Sum(labels, both)
  {
    var row, column, cell := l => n * left(l), l => n * right(l), l => 2 * (n * both(l));
    var bound, twice := l => row(l) + column(l), l => row(l) + column(l) + cell(l);
    forall l: Label | l in labels
      ensures 0 <= product(l) <= row(l) && 4 * product(l) <= twice(l)
    {
      CellProduct(left(l), right(l), both(l), n);
    }
    SumIsZero(labels, product);
    SumGrows(labels, product, row);
    SumScales(labels, n, left, row);
    SumGrows(labels, l => 4 * product(l), twice);
    SumScales(labels, 4, product, l => 4 * product(l));
    SumScales(labels, n, right, column);
    SumAdds(labels, row, column, bound);
    SumAdds(labels, bound, cell, twice);
    SumScales(labels, n, both, l => n * both(l));
    SumScales(labels, 2, l => n * both(l), cell);
  }

  lemma ChanceBounds(labels: seq<Label>, pairs: Pairs)
    requires Distinct(labels) && PairsAmong(labels, pairs)
    ensures 0 <= Chance(labels, pairs) <= |pairs| * |pairs|
    ensures 2 * Chance(labels, pairs) <= |pairs| * |pairs| + Agreements(pairs) * |pairs|
  {
    CountsPartition(labels, Lefts(pairs));
    CountsPartition(labels, Rights(pairs));
    AgreementsPartition(labels, pairs);
    forall l: Label
      ensures Both(pairs, l) <= Count(Lefts(pairs), l) && Both(pairs, l) <= Count(Rights(pairs), l)
      ensures Count(Lefts(pairs), l) + Count(Rights(pairs), l) <= |pairs| + Both(pairs, l)
    {
      CellBounds(pairs, l);
    }
    TableBounds(labels, l => Count(Lefts(pairs), l), l => Count(Rights(pairs), l), l => Both(pairs, l),
                l => Count(Lefts(pairs), l) * Count(Rights(pairs), l), |pairs|);
  }

  // ---- when chance agreement is certain

  /** Every rating of both sides is one and the same label. */
  ghost predicate OneLabel(pairs: Pairs) {
    exists l: Label :: Constant(pairs, l)
  }

  predicate Constant(pairs: Pairs, l: Label) {
    forall i: nat | i < |pairs| :: pairs[i] == (l, l)
  }

  lemma FullMarginals(pairs: Pairs, l: Label)
    ensures Count(Lefts(pairs), l) == Count(Rights(pairs), l) == |pairs| <==> Constant(pairs, l)
  {
    FullCount(Lefts(pairs), l);
    FullCount(Rights(pairs), l);
    if Count(Lefts(pairs), l) == Count(Rights(pairs), l) == |pairs| {
      forall i: nat | i < |pairs| ensures pairs[i] == (l, l) {
        assert Lefts(pairs)[i] == l && Rights(pairs)[i] == l;
      }
    }
  }

  lemma GapForm(left: int, right: int, n: int)
    ensures left * (n - right) == n * left - left * right
  {}

  /** The marginals of one label fill the whole table. */
  predicate Filled(left: Label -> int, right: Label -> int, n: int, l: Label) {
    left(l) == n && right(l) == n
  }

  /** Two marginals whose products reach the square of the total are both concentrated on one label. */
  lemma CertainMarginals(labels: seq<Label>, left: Label -> int, right: Label -> int, product: Label -> int, n: int)
    requires Distinct(labels) && n > 0 && Sum(labels, left) == n && Sum(labels, right) == n
    requires forall l: Label | l in labels :: 0 <= left(l) <= n && 0 <= right(l) <= n
    requires forall l: Label | l in labels :: product(l) == left(l) * right(l)
    ensures Sum(labels, product) == n * n <==> exists l: Label :: l in labels && Filled(left, right, n, l)
  {
    var row := l => n * left(l);
    var gap := l => left(l) * (n - right(l));
    forall l: Label | l in labels ensures gap(l) >= 0 && row(l) == gap(l) + product(l) {
      MulGrows(0, left(l), n - right(l));
      GapForm(left(l), right(l), n);
    }
    SumScales(labels, n, left, row);
    SumAdds(labels, gap, product, row);
    SumIsZero(labels, gap);
    if Sum(labels, product) == n * n {
      SumIsZero(labels, left);
      var l: Label :| l in labels && left(l) != 0;
      ConcentratedAt(labels, left, right, gap, n, l);
    }
    if l: Label :| l in labels && Filled(left, right, n, l) {
      SumAtLeast(labels, left, l);
      forall m: Label | m in labels ensures gap(m) == 0 {
        assert m != l ==> left(m) == 0;
      }
    }
  }

  lemma ConcentratedAt(labels: seq<Label>, left: Label -> int, right: Label -> int, gap: Label -> int, n: int, l: Label)
    requires Distinct(labels) && n > 0 && Sum(labels, left) == n && Sum(labels, right) == n
    requires forall m: Label | m in labels :: 0 <= left(m) <= n && 0 <= right(m) <= n
    requires forall m: Label | m in labels :: gap(m) == left(m) * (n - right(m)) == 0
    requires l in labels && left(l) != 0
    ensures Filled(left, right, n, l)
  {
    ZeroProduct(left(l), n - right(l));
    SumAtLeast(labels, right, l);
    forall m: Label | m in labels && m != l ensures left(m) == 0 {
      ZeroProduct(left(m), n - right(m));
    }
    SumAtLeast(labels, left, l);
  }

  lemma CertainChance(labels: seq<Label>, pairs: Pairs)
    requires Distinct(labels) && PairsAmong(labels, pairs) && pairs != []
    ensures Chance(labels, pairs) == |pairs| * |pairs| <==> OneLabel(pairs)
  {
    CountsPartition(labels, Lefts(pairs));
    CountsPartition(labels, Rights(pairs));
    var left, right := l => Count(Lefts(pairs), l), l => Count(Rights(pairs), l);
    CertainMarginals(labels, left, right, l => Count(Lefts(pairs), l) * Count(Rights(pairs), l), |pairs|);
    forall l: Label ensures Filled(left, right, |pairs|, l) <==> Constant(pairs, l) {
      FullMarginals(pairs, l);
    }
    forall l: Label | Constant(pairs, l) ensures l in labels {
      assert pairs[0] == (l, l);
    }
  }

  // ---- the value

  lemma QuotientIs(x: real, d: real, y: real)
    requires d > 0.0 && x * d == y
    ensures y / d == x
  {}

  lemma Quotients(u: real, v: real, q: real)
    requires q > 0.0
    ensures u / q - v / q == (u - v) / q
    ensures v != 0.0 ==> (u / q) / (v / q) == u / v
    ensures u / q == 1.0 <==> u == q
  {
    assert (u / q) * q == u && (v / q) * q == v;
    if v != 0.0 {
      assert (u / v) * (v / q) == u / q by {
        assert (u / v) * v == u;
      }
    }
  }

  lemma RealMulGrows(a: real, b: real, c: real)
    requires a < b && 0.0 < c
    ensures a * c < b * c
  {}

  lemma RatioBounds(u: real, d: real, low: real)
    requires d > 0.0 && low * d <= u <= d
    ensures low <= u / d <= 1.0
    ensures u / d == 1.0 <==> u == d
  {
    var x := u / d;
    assert x * d == u;
    if x < low {
      RealMulGrows(x, low, d);
    }
    if x > 1.0 {
      RealMulGrows(1.0, x, d);
    }
  }

  /** The corrected agreement of two ratios with a common denominator. */
  lemma CorrectedRange(u: real, e: real, q: real, low: real)
    requires q > 0.0 && e <= q && u <= q && low * (q - e) <= u - e
    ensures Corrected(u / q, e / q) == Err(DegenerateMarginals) <==> e == q
    ensures var r := Corrected(u / q, e / q);
      r.Ok? ==> low <= r.value <= 1.0 && (r.value == 1.0 <==> u == q)
  {
    Quotients(e, q, q);
    Quotients(q, e, q);
    Quotients(u, e, q);
    if e != q {
      Quotients(u - e, q - e, q);
      RatioBounds(u - e, q - e, low);
    }
  }

  lemma Associates(x: real, n: real)
    ensures x * (n * n) == (x * n) * n
  {}

  lemma Unscaled(x: real, n: real, a: real, product: real, square: real)
    requires a == x * n && product == a * n && square == n * n
    ensures x * square == product
  {
    Associates(x, n);
  }

  lemma Divide(a: real, n: real) returns (x: real)
    requires n > 0.0
    ensures x * n == a && x == a / n
  {
    x := a / n;
  }

  lemma Rescaled(a: real, n: real, product: real, square: real)
    requires n > 0.0 && square > 0.0 && product == a * n && square == n * n
    ensures a / n == product / square
  {
    var x := Divide(a, n);
    Unscaled(x, n, a, product, square);
    QuotientIs(x, square, product);
  }

  predicate CohenRangeFor(r: Result<real, Undefined>, certain: bool, full: bool) {
    && (r == Err(DegenerateMarginals) <==> certain)
    && (r.Ok? ==> -1.0 <= r.value <= 1.0 && (r.value == 1.0 <==> full))
  }

  lemma CohenForm(n: real, a: real, e: real, square: real, product: real)
    requires n > 0.0 && square > 0.0 && product == a * n && square == n * n
    requires e <= square && product <= square && -1.0 * (square - e) <= product - e
    ensures CohenRangeFor(Corrected(a / n, e / square), e == square, product == square)
  {
    Rescaled(a, n, product, square);
    CorrectedRange(product, e, square, -1.0);
  }

  lemma Casts(n: nat, a: nat, e: int)
    requires 0 < n && a <= n
    ensures (n * n) as real == n as real * n as real && (a * n) as real == a as real * n as real
    ensures n * n > 0 && a * n <= n * n && (a * n == n * n <==> a == n)
  {
    MulGrows(a, n, n);
    if a < n {
      MulGrows(a + 1, n, n);
    }
  }

  lemma CohenValue(n: nat, a: nat, e: int, square: int, product: int)
    requires 0 < n && a <= n && square == n * n && product == a * n
    requires e <= square && 2 * e <= square + product
    ensures CohenRangeFor(Corrected(a as real / n as real, e as real / square as real), e == square, a == n)
  {
    Casts(n, a, e);
    CohenForm(n as real, a as real, e as real, square as real, product as real);
  }

  lemma {:induction false} CohenCorrected(labels: seq<Label>, pairs: Pairs, square: int)
    requires Distinct(labels) && PairsAmong(labels, pairs) && pairs != [] && square == |pairs| * |pairs|
    ensures CohenRangeFor(Cohen(labels, pairs), Chance(labels, pairs) == square, Agreements(pairs) == |pairs|)
  {
    ChanceBounds(labels, pairs);
    CohenOfCounts(labels, pairs, |pairs|, Agreements(pairs), Chance(labels, pairs), square,
      Agreements(pairs) * |pairs|);
  }

  lemma {:induction false} CohenOfCounts(labels: seq<Label>, pairs: Pairs, n: nat, a: nat, e: int, square: int,
      product: int)
    requires 0 < n == |pairs| && a == Agreements(pairs) && e == Chance(labels, pairs)
    requires a <= n && square == n * n && product == a * n
    requires e <= square && 2 * e <= square + product
    ensures CohenRangeFor(Cohen(labels, pairs), e == square, a == n)
  {
    CohenValue(n, a, e, square, product);
  }

  /** Cohen's value lies in [-1, 1] and is 1 exactly on full agreement; it is undefined exactly on no data
      and on a single label throughout. */
  lemma {:induction false} CohenRange(labels: seq<Label>, pairs: Pairs)
    requires Distinct(labels) && PairsAmong(labels, pairs)
    ensures Cohen(labels, pairs) == Err(NoData) <==> pairs == []
    ensures Cohen(labels, pairs) == Err(DegenerateMarginals) <==> pairs != [] && OneLabel(pairs)
    ensures Cohen(labels, pairs).Ok? ==> -1.0 <= Cohen(labels, pairs).value <= 1.0
    ensures Cohen(labels, pairs).Ok? ==>
      (Cohen(labels, pairs).value == 1.0 <==> forall i: nat | i < |pairs| :: pairs[i].0 == pairs[i].1)
  {
    if pairs != [] {
      CertainChance(labels, pairs);
      FullAgreement(pairs);
      CohenCorrected(labels, pairs, |pairs| * |pairs|);
    }
  }

  // ---- the value in terms of the ratings

  ghost function EqualPositions(pairs: Pairs): set<nat> {
    set i: nat | i < |pairs| && pairs[i].0 == pairs[i].1
  }

  /** Agreement is the number of pairs that agree. */
  lemma {:induction false} AgreementsCount(pairs: Pairs)
    ensures Agreements(pairs) == |EqualPositions(pairs)|
  {
    if pairs == [] {
      assert EqualPositions(pairs) == {};
    } else {
      var rest, n := pairs[..|pairs| - 1], |pairs| - 1;
      AgreementsCount(rest);
      assert EqualPositions(pairs) == EqualPositions(rest) + if pairs[n].0 == pairs[n].1 then {n} else {};
    }
  }

  /** The places at which a rating of one list equals a rating of another. */
  ghost function CrossMatches(a: seq<Label>, b: seq<Label>): set<(nat, nat)> {
    set i: nat, j: nat | i < |a| && j < |b| && a[i] == b[j] :: (i, j)
  }

  ghost function Row(b: seq<Label>, l: Label, i: nat): set<(nat, nat)> {
    set j: nat | j < |b| && b[j] == l :: (i, j)
  }

  lemma {:induction false} RowSize(b: seq<Label>, l: Label, i: nat)
    ensures |Row(b, l, i)| == Count(b, l)
  {
    if b == [] {
      assert Row(b, l, i) == {};
    } else {
      var rest, n := b[..|b| - 1], |b| - 1;
      RowSize(rest, l, i);
      assert Row(b, l, i) == Row(rest, l, i) + if b[n] == l then {(i, n)} else {};
    }
  }

  /** The products of the label counts add up to the number of places that match across the two lists. */
  lemma {:induction false} ProductsCountMatches(labels: seq<Label>, a: seq<Label>, b: seq<Label>)
    requires Distinct(labels) && Among(labels, a)
    ensures Sum(labels, l => Count(a, l) * Count(b, l)) == |CrossMatches(a, b)|
  {
    if a == [] {
      SumIsZero(labels, l => Count(a, l) * Count(b, l));
      assert CrossMatches(a, b) == {};
    } else {
      var rest, n := a[..|a| - 1], |a| - 1;
      assert forall i: nat | i < |rest| :: rest[i] == a[i];
      ProductsCountMatches(labels, rest, b);
      RowSize(b, a[n], n);
      SumOfProductsGrows(labels, a, b);
      assert CrossMatches(a, b) == CrossMatches(rest, b) + Row(b, a[n], n);
    }
  }

  lemma SumOfProductsGrows(labels: seq<Label>, a: seq<Label>, b: seq<Label>)
    requires Distinct(labels) && a != [] && a[|a| - 1] in labels
    ensures Sum(labels, l => Count(a, l) * Count(b, l))
         == Sum(labels, l => Count(a[..|a| - 1], l) * Count(b, l)) + Count(b, a[|a| - 1])
  {
    var rest, last := a[..|a| - 1], a[|a| - 1];
    var product := l => Count(a, l) * Count(b, l);
    var before, more := l => Count(rest, l) * Count(b, l), l => if l == last then Count(b, l) else 0;
    forall l: Label ensures product(l) == before(l) + more(l) {
      CountProductGrows(a, b, l);
    }
    SumAdds(labels, before, more, product);
    SumAtLeast(labels, more, last);
  }

  lemma CountProductGrows(a: seq<Label>, b: seq<Label>, l: Label)
    requires a != []
    ensures Count(a, l) * Count(b, l)
         == Count(a[..|a| - 1], l) * Count(b, l) + if l == a[|a| - 1] then Count(b, l) else 0
  {
    if l == a[|a| - 1] {
      NextProduct(Count(a, l), Count(a[..|a| - 1], l), Count(b, l));
    }
  }

  lemma NextProduct(next: int, k: int, c: int)
    requires next == k + 1
    ensures next * c == k * c + c
  {
    NextMultiple(k, c);
  }

  /** Chance counts how often a rating of the one side equals a rating of the other, over all pairs of places. */
  lemma ChanceCounts(labels: seq<Label>, pairs: Pairs)
    requires Distinct(labels) && PairsAmong(labels, pairs)
    ensures Chance(labels, pairs) == |CrossMatches(Lefts(pairs), Rights(pairs))|
  {
    ProductsCountMatches(labels, Lefts(pairs), Rights(pairs));
  }

  lemma CorrectedValue(u: real, e: real, q: real)
    requires q > 0.0 && Corrected(u / q, e / q).Ok?
    ensures Corrected(u / q, e / q).value * (q - e) == u - e
  {
    Quotients(e, q, q);
    Quotients(q, e, q);
    Quotients(u, e, q);
    Quotients(u - e, q - e, q);
  }

  lemma CohenValueForm(n: real, a: real, e: real, square: real, product: real)
    requires n > 0.0 && square > 0.0 && product == a * n && square == n * n && Corrected(a / n, e / square).Ok?
    ensures Corrected(a / n, e / square).value * (square - e) == product - e
  {
    Rescaled(a, n, product, square);
    CorrectedValue(product, e, square);
  }

  /** A defined value times a factor is what it should be. */
  predicate Solves(r: Result<real, Undefined>, factor: real, product: real) {
    r.Ok? ==> Times(r.value, factor) == product
  }

  function Times(x: real, y: real): real { x * y }

  lemma CohenValueExact(n: nat, a: nat, e: int, square: int, product: int)
    requires 0 < n && a <= n && square == n * n && product == a * n
    ensures square > 0
    ensures Solves(Corrected(a as real / n as real, e as real / square as real), square as real - e as real,
      product as real - e as real)
  {
    Casts(n, a, e);
    if Corrected(a as real / n as real, e as real / square as real).Ok? {
      CohenValueForm(n as real, a as real, e as real, square as real, product as real);
    }
  }

  lemma {:induction false} CohenCounted(labels: seq<Label>, pairs: Pairs, n: nat, a: nat, e: int, square: int,
      product: int)
    requires 0 < n == |pairs| && a == Agreements(pairs) && e == Chance(labels, pairs)
    requires square == n * n && product == a * n
    ensures Solves(Cohen(labels, pairs), square as real - e as real, product as real - e as real)
  {
    CohenValueExact(n, a, e, square, product);
  }

  /** The value, freed of its denominators: kappa times (n^2 - chance) is n times the agreements minus chance. */
  lemma {:induction false} CohenIsExact(labels: seq<Label>, pairs: Pairs, n: nat, chance: nat, square: int,
      product: int)
    requires Distinct(labels) && PairsAmong(labels, pairs) && pairs != []
    requires n == |pairs| && chance == |CrossMatches(Lefts(pairs), Rights(pairs))|
    requires square == n * n && product == |EqualPositions(pairs)| * n
    ensures Solves(Cohen(labels, pairs), square as real - chance as real, product as real - chance as real)
  {
    AgreementsCount(pairs);
    ChanceCounts(labels, pairs);
    CohenCounted(labels, pairs, n, Agreements(pairs), chance, square, product);
  }
}
