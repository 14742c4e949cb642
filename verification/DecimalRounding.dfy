/** The rounding of a decimal to a precision: to the nearest number with so many digits, and to the even one of two. */
module DecimalRounding {
  import opened Basics
  import opened Money

  lemma NearestMultiple(q: nat, r: nat, unit: nat, m: nat)
    requires r < unit && (m == q || m == q + 1)
    requires m == (if 2 * r > unit || (2 * r == unit && q % 2 == 1) then q + 1 else q)
    ensures 2 * Abs(m * unit - (q * unit + r)) <= unit
    ensures 2 * Abs(m * unit - (q * unit + r)) == unit ==> m % 2 == 0
  {
    NextMultiple(q, unit);
  }

  /** The multiple chosen is nearest, and of two equally near ones it is the even one. */
  lemma HalfEvenIsNearest(n: nat, unit: nat)
    requires unit > 0
    ensures 2 * Abs(HalfEven(n, unit) * unit - n) <= unit
    ensures 2 * Abs(HalfEven(n, unit) * unit - n) == unit ==> HalfEven(n, unit) % 2 == 0
  {
    var q, r := n / unit, n % unit;
    assert n == q * unit + r;
    NearestMultiple(q, r, unit, HalfEven(n, unit));
  }

  lemma HalfEvenBelow(n: nat, unit: nat, bound: nat)
    requires unit > 0 && n < bound * unit
    ensures HalfEven(n, unit) <= bound
  {
    var q, r := n / unit, n % unit;
    assert n == q * unit + r;
    if q >= bound {
      MulGrows(bound, q, unit);
    }
  }

  lemma {:induction false} DigitsFit(n: nat, precision: nat)
    requires Digits(n) > precision > 0
    ensures n >= Pow(precision)
  {
    if n < Pow(precision) {
      DigitsAtMost(n, precision);
    }
  }

  /** The last digits of a coefficient that is too long, and the multiple that replaces them. */
  lemma RoundedCoefficient(n: nat, precision: nat, k: nat, m: nat)
    requires 0 < precision < Digits(n) && k == Digits(n) - precision && m == HalfEven(n, Pow(k))
    ensures m <= Pow(precision) && (Digits(m) > precision ==> m == Pow(precision))
    ensures 2 * Abs(m * Pow(k) - n) <= Pow(k) && (2 * Abs(m * Pow(k) - n) == Pow(k) ==> m % 2 == 0)
  {
    DigitsBound(n);
    PowAdds(precision, k);
    HalfEvenBelow(n, Pow(k), Pow(precision));
    HalfEvenIsNearest(n, Pow(k));
    if Digits(m) > precision {
      DigitsFit(m, precision);
    }
  }

  /** A power of ten gives up its last zero. */
  lemma CarryKeeps(m: nat, precision: nat, k: nat)
    requires m == Pow(precision) && precision > 0
    ensures (m / 10) * Pow(k + 1) == m * Pow(k) && Digits(m / 10) <= precision
  {
    assert m / 10 == Pow(precision - 1) && m == 10 * (m / 10);
    PowGrows(precision - 1, precision);
    DigitsAtMost(m / 10, precision);
    Regroup(m / 10, 10, Pow(k));
  }

  /** Rounding leaves a number alone that has no more digits than it may have. Any other becomes the nearest number with
      so many digits, with its own sign, and of two equally near ones the one whose last digit is even. */
  lemma FixRounds(d: Decimal, precision: nat, f: Decimal) returns (m: nat, last: nat)
    requires precision > 0 && f == Fix(d, precision)
    ensures Digits(Abs(d.coefficient)) <= precision ==> f == d
    ensures Digits(Abs(f.coefficient)) <= precision
    ensures Digits(Abs(d.coefficient)) > precision ==>
      && last == Pow(Digits(Abs(d.coefficient)) - precision) && f.exponent >= d.exponent
      && At(f, d.exponent) == WithSign(d.coefficient, m * last)
      && 2 * Abs(m * last - Abs(d.coefficient)) <= last
      && (2 * Abs(m * last - Abs(d.coefficient)) == last ==> m % 2 == 0)
  {
    var n := Abs(d.coefficient);
    m, last := 0, 1;
    if Digits(n) > precision {
      var k := Digits(n) - precision;
      m, last := HalfEven(n, Pow(k)), Pow(k);
      RoundedCoefficient(n, precision, k, m);
      if Digits(m) > precision {
        CarryKeeps(m, precision, k);
        SignedTimes(d.coefficient, m / 10, Pow(k + 1));
      } else {
        SignedTimes(d.coefficient, m, Pow(k));
      }
    }
  }

  lemma SignedTimes(sign: int, n: nat, p: nat)
    ensures WithSign(sign, n) * p == WithSign(sign, n * p)
    ensures Abs(WithSign(sign, n)) == n
  {}
}
