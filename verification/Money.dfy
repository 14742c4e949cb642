/** Decimal arithmetic at a limited precision, and why the sums and charges of the policy are exact. */
module Money {
  import opened Basics
  import Policy

  /** A finite decimal: coefficient times ten to the power of the exponent. */
  datatype Decimal = Decimal(coefficient: int, exponent: int)

  function Abs(n: int): nat {
    if n < 0 then -n else n
  }

  // ---- powers of ten and digits

  function Pow(k: nat): (p: nat)
    ensures p >= 1
  {
    if k == 0 then 1 else 10 * Pow(k - 1)
  }

  lemma {:induction false} PowAdds(a: nat, b: nat)
    ensures Pow(a + b) == Pow(a) * Pow(b)
  {
    if a > 0 {
      PowAdds(a - 1, b);
      assert Pow(a) * Pow(b) == 10 * (Pow(a - 1) * Pow(b));
    }
  }

  lemma {:induction false} PowGrows(a: nat, b: nat)
    requires a <= b
    ensures Pow(a) <= Pow(b)
    decreases b - a
  {
    if a < b {
      PowGrows(a, b - 1);
    }
  }

  /** A smaller power has a smaller exponent. */
  lemma PowReflects(a: nat, b: nat)
    requires Pow(a) < Pow(b)
    ensures a < b
  {
    if b <= a {
      PowGrows(b, a);
    }
  }

  function Digits(n: nat): (d: nat)
    ensures d >= 1
  {
    if n < 10 then 1 else 1 + Digits(n / 10)
  }

  lemma {:induction false} DigitsBound(n: nat)
    ensures n < Pow(Digits(n))
    ensures n > 0 ==> Pow(Digits(n) - 1) <= n
  {
    if n >= 10 {
      DigitsBound(n / 10);
    }
  }

  lemma DigitsAtMost(n: nat, k: nat)
    requires 0 < k && n < Pow(k)
    ensures Digits(n) <= k
  {
    DigitsBound(n);
    if n > 0 {
      PowReflects(Digits(n) - 1, k);
    }
  }

  // ---- values and rounding

  /** The value in units of ten to the power of a unit exponent that is low enough. */
  function At(d: Decimal, unit: int): int
    requires unit <= d.exponent
  {
    d.coefficient * Pow(d.exponent - unit)
  }

  /** The exponent of the leading digit. */
  function Adjusted(d: Decimal): int {
    d.exponent + Digits(Abs(d.coefficient)) - 1
  }

  function WithSign(sign: int, n: nat): int {
    if sign < 0 then 0 - n else n
  }

  function HalfEven(n: nat, unit: nat): nat
    requires unit > 0
  {
    var q, r := n / unit, n % unit;
    if 2 * r > unit || (2 * r == unit && q % 2 == 1) then q + 1 else q
  }

  /** Rounding to the precision of a context, half to even. */
  function Fix(d: Decimal, precision: nat): Decimal
    requires precision > 0
  {
    var n := Abs(d.coefficient);
    if Digits(n) <= precision then d
    else
      var k := Digits(n) - precision;
      var m := HalfEven(n, Pow(k));
      if Digits(m) > precision then Decimal(WithSign(d.coefficient, m / 10), d.exponent + k + 1)
      else Decimal(WithSign(d.coefficient, m), d.exponent + k)
  }

  function Add(a: Decimal, b: Decimal, precision: nat): Decimal
    requires precision > 0
  {
    var unit := Min(a.exponent, b.exponent);
    Fix(Decimal(At(a, unit) + At(b, unit), unit), precision)
  }

  function Multiply(a: Decimal, b: Decimal, precision: nat): Decimal
    requires precision > 0
  {
    Fix(Decimal(a.coefficient * b.coefficient, a.exponent + b.exponent), precision)
  }

  /** The correctly rounded quotient by a million. */
  function PerMillion(a: Decimal, precision: nat): Decimal
    requires precision > 0
  {
    Fix(Decimal(a.coefficient, a.exponent - 6), precision)
  }

  // ---- when rounding is exact

  lemma Euclid(n: nat, d: nat)
    requires d > 0
    ensures n == (n / d) * d + n % d && 0 <= n % d < d
  {}

  lemma OneQuotient(q: nat, a: nat, r: nat, d: nat)
    requires q * d == a * d + r && r < d
    ensures a == q && r == 0
  {
    if a < q {
      MulGrows(a + 1, q, d);
    } else if q < a {
      MulGrows(q + 1, a, d);
    }
  }

  lemma DividesExactly(n: nat, d: nat, q: nat)
    requires d > 0 && n == q * d
    ensures HalfEven(n, d) == q
  {
    Euclid(n, d);
    OneQuotient(q, n / d, n % d, d);
  }

  lemma MulReflects(a: int, b: int, c: int)
    requires a * c < b * c && 0 <= c
    ensures a < b
  {
    if b <= a {
      MulGrows(b, a, c);
    }
  }

  /** Rounding away only zeros keeps the value. */
  lemma FixDropsZeros(d: Decimal, precision: nat, unit: int, q: nat)
    requires precision > 0 && unit <= d.exponent && Digits(Abs(d.coefficient)) > precision
    requires Abs(d.coefficient) == q * Pow(Digits(Abs(d.coefficient)) - precision)
    ensures unit <= Fix(d, precision).exponent && At(Fix(d, precision), unit) == At(d, unit)
  {
    var n := Abs(d.coefficient);
    var k := Digits(n) - precision;
    DividesExactly(n, Pow(k), q);
    DigitsBound(n);
    PowAdds(precision, k);
    MulReflects(q, Pow(precision), Pow(k));
    DigitsAtMost(q, precision);
    PowAdds(k, d.exponent - unit);
    SignedProduct(d.coefficient, q, Pow(k), Pow(d.exponent - unit));
  }

  lemma SignedProduct(c: int, q: nat, a: nat, b: nat)
    requires Abs(c) == q * a
    ensures WithSign(c, q) * (a * b) == c * b
  {
    Regroup(q, a, b);
  }

  /** The number is a multiple of ten to the power of `low` and is below ten to the power of `low` plus the
      precision, all counted from the unit; then rounding to the precision is exact. */
  lemma FixIsExact(d: Decimal, precision: nat, unit: int, low: nat, multiple: int)
    requires precision > 0 && unit <= d.exponent
    requires At(d, unit) == multiple * Pow(low) && Abs(At(d, unit)) < Pow(low + precision)
    ensures unit <= Fix(d, precision).exponent && At(Fix(d, precision), unit) == At(d, unit)
  {
    var n := Abs(d.coefficient);
    if Digits(n) > precision {
      var k, shift := Digits(n) - precision, d.exponent - unit;
      AbsProduct(d.coefficient, Pow(shift));
      AbsProduct(multiple, Pow(low));
      DigitsBound(n);
      LeadReaches(Digits(n) - 1, n, shift, low + precision);
      TrailingZeros(n, Abs(multiple), low, shift, k);
      FixDropsZeros(d, precision, unit, Abs(multiple) * Pow(low - shift - k));
    }
  }

  /** A number below a power has so few digits. */
  lemma LeadReaches(lead: nat, n: nat, shift: nat, bound: nat)
    requires Pow(lead) <= n && n * Pow(shift) < Pow(bound)
    ensures lead + shift < bound
  {
    MulGrows(Pow(lead), n, Pow(shift));
    PowAdds(lead, shift);
    PowReflects(lead + shift, bound);
  }

  /** A multiple of a higher power, seen from a lower one, ends in zeros. */
  lemma TrailingZeros(n: nat, m: nat, low: nat, shift: nat, k: nat)
    requires k + shift <= low && n * Pow(shift) == m * Pow(low)
    ensures n == (m * Pow(low - shift - k)) * Pow(k)
  {
    PowAdds(low - shift, shift);
    PowAdds(low - shift - k, k);
    Cancel(n, m, Pow(low - shift), Pow(shift));
    Regroup(m, Pow(low - shift - k), Pow(k));
  }

  lemma Regroup(a: int, b: int, c: int)
    ensures a * (b * c) == (a * b) * c
  {}

  lemma AbsProduct(a: int, b: nat)
    ensures Abs(a * b) == Abs(a) * b
  {}

  lemma Cancel(n: nat, m: nat, a: nat, b: nat)
    requires n * b == m * (a * b) && b > 0
    ensures n == m * a
  {
    Regroup(m, a, b);
    if n < m * a {
      MulGrows(n + 1, m * a, b);
    } else if m * a < n {
      MulGrows(m * a + 1, n, b);
    }
  }

  // ---- sums

  function MinExponent(values: seq<Decimal>): int
    requires values != []
  {
    if |values| == 1 then values[0].exponent
    else Min(MinExponent(values[..|values| - 1]), values[|values| - 1].exponent)
  }

  function MaxAdjusted(values: seq<Decimal>): int
    requires values != []
  {
    if |values| == 1 then Adjusted(values[0])
    else Max(MaxAdjusted(values[..|values| - 1]), Adjusted(values[|values| - 1]))
  }

  function TotalPrecision(values: seq<Decimal>): (p: nat)
    requires values != []
    ensures p >= 80
  {
    Max(80, MaxAdjusted(values) - MinExponent(values) + Digits(|values|) + 3)
  }

  function SumUp(values: seq<Decimal>, precision: nat): Decimal
    requires precision > 0
  {
    if values == [] then Decimal(0, 0)
    else Add(SumUp(values[..|values| - 1], precision), values[|values| - 1], precision)
  }

  /** `money_total` */
  function MoneyTotal(values: seq<Decimal>): Decimal
    requires values != []
  {
    SumUp(values, TotalPrecision(values))
  }

  /** All exponents and leading digits lie between two bounds. */
  predicate Within(values: seq<Decimal>, low: int, high: int) {
    forall i: nat | i < |values| :: low <= values[i].exponent && Adjusted(values[i]) <= high
  }

  /** The exact sum, in units of ten to the power of `unit`. */
  function SumAt(values: seq<Decimal>, unit: int, high: int): int
    requires Within(values, unit, high)
  {
    if values == [] then 0 else SumAt(values[..|values| - 1], unit, high) + At(values[|values| - 1], unit)
  }

  lemma {:induction false} ValuesAreWithin(values: seq<Decimal>)
    requires values != []
    ensures Within(values, MinExponent(values), MaxAdjusted(values))
    ensures MinExponent(values) <= MaxAdjusted(values)
  {
    if |values| > 1 {
      var rest := values[..|values| - 1];
      ValuesAreWithin(rest);
      assert forall i: nat | i < |values| :: values[i] == if i < |rest| then rest[i] else values[|rest|];
    }
  }

  lemma Rescale(d: Decimal, low: int, unit: int)
    requires unit <= low <= d.exponent
    ensures At(d, unit) == At(d, low) * Pow(low - unit)
  {
    PowAdds(d.exponent - low, low - unit);
    Regroup(d.coefficient, Pow(d.exponent - low), Pow(low - unit));
  }

  lemma {:induction false} SumsRescale(values: seq<Decimal>, low: int, unit: int, high: int)
    requires unit <= low && Within(values, low, high)
    ensures Within(values, unit, high)
    ensures SumAt(values, unit, high) == SumAt(values, low, high) * Pow(low - unit)
  {
    if values != [] {
      SumsRescale(values[..|values| - 1], low, unit, high);
      Rescale(values[|values| - 1], low, unit);
      Spread(SumAt(values[..|values| - 1], low, high), At(values[|values| - 1], low), Pow(low - unit));
    }
  }

  lemma Spread(a: int, b: int, c: int)
    ensures (a + b) * c == a * c + b * c
  {}

  lemma OneIsBounded(d: Decimal, low: int, high: int)
    requires low <= d.exponent && Adjusted(d) <= high
    ensures low <= high + 1 && Abs(At(d, low)) <= Pow(high + 1 - low)
  {
    var n := Abs(d.coefficient);
    DigitsBound(n);
    AbsProduct(d.coefficient, Pow(d.exponent - low));
    MulGrows(n, Pow(Digits(n)), Pow(d.exponent - low));
    PowAdds(Digits(n), d.exponent - low);
    PowGrows(Digits(n) + (d.exponent - low), high + 1 - low);
  }

  lemma {:induction false} SumIsBounded(values: seq<Decimal>, low: int, high: int)
    requires low <= high + 1 && Within(values, low, high)
    ensures Abs(SumAt(values, low, high)) <= |values| * Pow(high + 1 - low)
  {
    if values != [] {
      SumIsBounded(values[..|values| - 1], low, high);
      OneIsBounded(values[|values| - 1], low, high);
      Spread(|values| - 1, 1, Pow(high + 1 - low));
    }
  }

  /** The bound in powers of ten. */
  lemma SumIsBelow(values: seq<Decimal>, low: int, high: int, unit: int, precision: nat)
    requires values != [] && unit <= low <= high + 1 && Within(values, low, high)
    requires high - low + Digits(|values|) + 1 <= precision
    ensures Within(values, unit, high) && Abs(SumAt(values, unit, high)) < Pow((low - unit) + precision)
  {
    SumsRescale(values, low, unit, high);
    SumIsBounded(values, low, high);
    AbsProduct(SumAt(values, low, high), Pow(low - unit));
    BelowPower(Abs(SumAt(values, low, high)), |values|, high + 1 - low, low - unit, precision);
  }

  lemma BelowPower(sum: nat, count: nat, span: nat, shift: nat, precision: nat)
    requires count > 0 && sum <= count * Pow(span) && span + Digits(count) <= precision
    ensures sum * Pow(shift) < Pow(shift + precision)
  {
    DigitsBound(count);
    StrictlyGrows(count, Pow(Digits(count)), Pow(span));
    PowAdds(Digits(count), span);
    PowGrows(Digits(count) + span, precision);
    StrictlyGrows(sum, Pow(precision), Pow(shift));
    PowAdds(precision, shift);
  }

  lemma StrictlyGrows(a: int, b: int, c: int)
    requires a < b && 0 < c
    ensures a * c < b * c
  {}

  /** An addition whose exact result needs no more digits than the precision is exact. */
  lemma AddIsExact(a: Decimal, b: Decimal, precision: nat, unit: int, low: nat, multiple: int)
    requires precision > 0 && unit <= a.exponent && unit <= b.exponent
    requires At(a, unit) + At(b, unit) == multiple * Pow(low)
    requires Abs(At(a, unit) + At(b, unit)) < Pow(low + precision)
    ensures unit <= Add(a, b, precision).exponent
    ensures At(Add(a, b, precision), unit) == At(a, unit) + At(b, unit)
  {
    var e := Min(a.exponent, b.exponent);
    Rescale(a, e, unit);
    Rescale(b, e, unit);
    Spread(At(a, e), At(b, e), Pow(e - unit));
    FixIsExact(Decimal(At(a, e) + At(b, e), e), precision, unit, low, multiple);
  }

  lemma {:induction false} PartialSumIsExact(values: seq<Decimal>, low: int, high: int, unit: int, precision: nat,
      count: nat)
    requires precision > 0 && unit <= 0 && unit <= low <= high + 1 && Within(values, low, high)
    requires |values| <= count && high - low + Digits(count) + 1 <= precision
    ensures Within(values, unit, high) && unit <= SumUp(values, precision).exponent
    ensures At(SumUp(values, precision), unit) == SumAt(values, unit, high)
  {
    if values != [] {
      var rest, last := values[..|values| - 1], values[|values| - 1];
      PartialSumIsExact(rest, low, high, unit, precision, count);
      DigitsGrow(|values|, count);
      SumIsBelow(values, low, high, unit, precision);
      SumsRescale(values, low, unit, high);
      AddIsExact(SumUp(rest, precision), last, precision, unit, low - unit, SumAt(values, low, high));
    }
  }

  lemma {:induction false} DigitsGrow(a: nat, b: nat)
    requires a <= b
    ensures Digits(a) <= Digits(b)
  {
    if a >= 10 {
      DigitsGrow(a / 10, b / 10);
    }
  }

  /** `money_total` loses nothing: in a unit that fits all amounts, the total is the exact sum. */
  lemma TotalIsExact(values: seq<Decimal>, unit: int)
    requires values != [] && unit <= MinExponent(values) && unit <= 0
    ensures Within(values, unit, MaxAdjusted(values))
    ensures unit <= MoneyTotal(values).exponent
    ensures At(MoneyTotal(values), unit) == SumAt(values, unit, MaxAdjusted(values))
  {
    ValuesAreWithin(values);
    PartialSumIsExact(values, MinExponent(values), MaxAdjusted(values), unit, TotalPrecision(values), |values|);
  }

  // ---- charges

  /** What the policy accepts as an amount: below a billion, with at most twelve decimals. */
  predicate ValidAmount(d: Decimal) {
    0 <= d.coefficient && -12 <= d.exponent <= 0 && d.coefficient < Pow(9 - d.exponent)
  }

  function ChargePrecision(incoming: nat, outgoing: nat): (p: nat)
    ensures p >= 80
  {
    Max(80, Digits(incoming) + Digits(outgoing) + 50)
  }

  /** `charge` */
  function ChargeOf(incoming: nat, outgoing: nat, input: Decimal, output: Decimal): Decimal {
    var p := ChargePrecision(incoming, outgoing);
    PerMillion(Add(Multiply(Decimal(incoming, 0), input, p), Multiply(Decimal(outgoing, 0), output, p), p), p)
  }

  lemma AmountIsBelow(d: Decimal)
    requires ValidAmount(d)
    ensures 0 <= At(d, -12) < Pow(21)
  {
    StrictlyGrows(d.coefficient, Pow(9 - d.exponent), Pow(d.exponent + 12));
    PowAdds(9 - d.exponent, d.exponent + 12);
    MulGrows(0, d.coefficient, Pow(d.exponent + 12));
  }

  lemma ProductIsBelow(a: nat, b: nat, x: nat, y: nat)
    requires a < Pow(x) && b < Pow(y)
    ensures 0 <= a * b < Pow(x + y)
  {
    MulGrows(0, a, b);
    MulGrows(b, Pow(y), a);
    StrictlyGrows(a, Pow(x), Pow(y));
    PowAdds(x, y);
    Commutes(a, b);
    Commutes(a, Pow(y));
  }

  lemma Commutes(a: int, b: int)
    ensures a * b == b * a
  {}

  lemma SumIsBelowPower(a: nat, b: nat, x: nat, y: nat)
    requires a < Pow(x) && b < Pow(y)
    ensures a + b < Pow(Max(x, y) + 1)
  {
    PowGrows(x, Max(x, y));
    PowGrows(y, Max(x, y));
  }

  /** Rounding what fits the precision as it stands changes nothing. */
  lemma FixFits(d: Decimal, precision: nat, unit: int, width: nat)
    requires 0 < width <= precision && unit <= d.exponent && Abs(At(d, unit)) < Pow(width)
    ensures unit <= Fix(d, precision).exponent && At(Fix(d, precision), unit) == At(d, unit)
  {
    PowGrows(width, precision);
    FixIsExact(d, precision, unit, 0, At(d, unit));
  }

  lemma MultiplyIsExact(n: nat, price: Decimal, precision: nat)
    requires ValidAmount(price) && Digits(n) + 21 <= precision
    ensures -12 <= Multiply(Decimal(n, 0), price, precision).exponent
    ensures At(Multiply(Decimal(n, 0), price, precision), -12) == n * At(price, -12)
    ensures 0 <= n * At(price, -12) < Pow(Digits(n) + 21)
  {
    ScaledAmount(n, price);
    FixFits(Decimal(n * price.coefficient, 0 + price.exponent), precision, -12, Digits(n) + 21);
  }

  lemma ScaledAmount(n: nat, price: Decimal)
    requires ValidAmount(price)
    ensures At(Decimal(n * price.coefficient, price.exponent), -12) == n * At(price, -12)
    ensures 0 <= n * At(price, -12) < Pow(Digits(n) + 21)
  {
    AmountIsBelow(price);
    DigitsBound(n);
    ProductIsBelow(n, At(price, -12), Digits(n), 21);
    Regroup(n, price.coefficient, Pow(price.exponent + 12));
  }

  lemma AmountsAddExactly(a: Decimal, b: Decimal, precision: nat, x: nat, y: nat)
    requires -12 <= a.exponent && -12 <= b.exponent && Max(x, y) + 1 <= precision
    requires 0 <= At(a, -12) < Pow(x) && 0 <= At(b, -12) < Pow(y)
    ensures -12 <= Add(a, b, precision).exponent
    ensures At(Add(a, b, precision), -12) == At(a, -12) + At(b, -12)
    ensures 0 <= At(a, -12) + At(b, -12) < Pow(Max(x, y) + 1)
  {
    SumIsBelowPower(At(a, -12), At(b, -12), x, y);
    PowGrows(Max(x, y) + 1, precision);
    AddIsExact(a, b, precision, -12, 0, At(a, -12) + At(b, -12));
  }

  lemma PerMillionIsExact(sum: Decimal, precision: nat, width: nat)
    requires -12 <= sum.exponent && 0 < width <= precision && 0 <= At(sum, -12) < Pow(width)
    ensures -18 <= PerMillion(sum, precision).exponent
    ensures At(PerMillion(sum, precision), -18) == At(sum, -12)
  {
    FixFits(Decimal(sum.coefficient, sum.exponent - 6), precision, -18, width);
  }

  /** `charge` loses nothing: in units of 10^-18 dollars it is the exact integer charge of any token counts. */
  lemma ChargeIsExact(incoming: nat, outgoing: nat, input: Decimal, output: Decimal)
    requires ValidAmount(input) && ValidAmount(output)
    ensures -18 <= ChargeOf(incoming, outgoing, input, output).exponent
    ensures At(ChargeOf(incoming, outgoing, input, output), -18)
      == incoming * At(input, -12) + outgoing * At(output, -12)
  {
    var p := ChargePrecision(incoming, outgoing);
    var x, y := Digits(incoming) + 21, Digits(outgoing) + 21;
    MultiplyIsExact(incoming, input, p);
    MultiplyIsExact(outgoing, output, p);
    var a, b := Multiply(Decimal(incoming, 0), input, p), Multiply(Decimal(outgoing, 0), output, p);
    AmountsAddExactly(a, b, p, x, y);
    PerMillionIsExact(Add(a, b, p), p, Max(x, y) + 1);
  }

  /** The integer arithmetic of the policy is the decimal arithmetic of the code. */
  lemma ChargeIsPolicyCharge(incoming: nat, outgoing: nat, input: Decimal, output: Decimal, bound: nat)
    requires ValidAmount(input) && ValidAmount(output)
    ensures 0 <= At(input, -12) && 0 <= At(output, -12) && -18 <= ChargeOf(incoming, outgoing, input, output).exponent
    ensures At(ChargeOf(incoming, outgoing, input, output), -18)
         == Policy.Charge(Policy.Usage(incoming, outgoing), Policy.Price(bound, At(input, -12), At(output, -12)))
  {
    AmountIsBelow(input);
    AmountIsBelow(output);
    ChargeIsExact(incoming, outgoing, input, output);
  }
}
