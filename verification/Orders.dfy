/** Orders on strings and numbers that the modelled code sorts by. */
module Orders {
  import opened Basics

  /** Lexicographic order by code point, which is also the order of UTF-8 bytes. */
  predicate LexLE(a: string, b: string) {
    a == [] || (b != [] && (a[0] < b[0] || (a[0] == b[0] && LexLE(a[1..], b[1..]))))
  }

  lemma {:induction false} LexTotal(a: string, b: string)
    ensures LexLE(a, b) || LexLE(b, a)
  {
    if a != [] && b != [] && a[0] == b[0] {
      LexTotal(a[1..], b[1..]);
    }
  }

  lemma {:induction false} LexAntisymmetric(a: string, b: string)
    requires LexLE(a, b) && LexLE(b, a)
    ensures a == b
  {
    if a != [] && b != [] {
      LexAntisymmetric(a[1..], b[1..]);
      assert a == [a[0]] + a[1..] && b == [b[0]] + b[1..];
    }
  }

  lemma {:induction false} LexTransitive(a: string, b: string, c: string)
    requires LexLE(a, b) && LexLE(b, c)
    ensures LexLE(a, c)
  {
    if a != [] && a[0] == b[0] == c[0] {
      LexTransitive(a[1..], b[1..], c[1..]);
    }
  }

  /** The strings agree before place k and differ there, in the given order. */
  predicate FirstLess(a: string, b: string, k: nat) {
    k < |a| && k < |b| && a[..k] == b[..k] && a[k] < b[k]
  }

  /** A prefix comes first; otherwise the first character that differs decides. */
  lemma {:induction false} LexMeaning(a: string, b: string)
    ensures LexLE(a, b) <==> a <= b || exists k: nat :: FirstLess(a, b, k)
  {
    if a != [] && b != [] {
      LexMeaning(a[1..], b[1..]);
      if a[0] == b[0] {
        PrefixStep(a, b);
        if k: nat :| FirstLess(a[1..], b[1..], k) {
          LessStep(a, b, k + 1);
        }
        if k: nat :| FirstLess(a, b, k) {
          LessStep(a, b, k);
        }
      } else if a[0] < b[0] {
        assert FirstLess(a, b, 0);
      } else if k: nat :| FirstLess(a, b, k) {
        LessStarts(a, b, k);
      }
    }
  }

  lemma LessStarts(a: string, b: string, k: nat)
    requires FirstLess(a, b, k)
    ensures a[0] <= b[0]
  {
    if k > 0 {
      assert a[..k][0] == b[..k][0];
    }
  }

  lemma PrefixStep(a: string, b: string)
    requires a != [] && b != [] && a[0] == b[0]
    ensures a <= b <==> a[1..] <= b[1..]
  {
    assert a == [a[0]] + a[1..] && b == [b[0]] + b[1..];
    if a <= b {
      assert b[1..][..|a[1..]|] == b[..|a|][1..];
    }
  }

  lemma LessStep(a: string, b: string, k: nat)
    requires a != [] && b != [] && a[0] == b[0] && k > 0
    ensures FirstLess(a, b, k) <==> FirstLess(a[1..], b[1..], k - 1)
  {
    if k < |a| && k < |b| {
      assert a[..k] == [a[0]] + a[1..][..k - 1] && b[..k] == [b[0]] + b[1..][..k - 1];
      assert a[1..][..k - 1] == a[..k][1..] && b[1..][..k - 1] == b[..k][1..];
    }
  }

  /** A finite nonempty set of strings has a least element. */
  lemma {:induction false} LeastStringExists(s: set<string>) returns (least: string)
    requires s != {}
    ensures least in s && forall x | x in s :: LexLE(least, x)
  {
    var x :| x in s;
    if s == {x} {
      LexTotal(x, x);
      return x;
    }
    assert s == {x} + (s - {x});
    var rest := LeastStringExists(s - {x});
    LexTotal(x, rest);
    LexTotal(x, x);
    if LexLE(rest, x) {
      return rest;
    }
    forall y | y in s ensures LexLE(x, y) {
      if y != x { LexTransitive(x, rest, y); }
    }
    return x;
  }

  predicate SortedStrings(s: seq<string>) {
    forall i, j | 0 <= i < j < |s| :: LexLE(s[i], s[j])
  }

  method SortStrings(s: set<string>) returns (r: seq<string>)
    ensures SortedStrings(r) && Distinct(r)
    ensures forall x :: x in r <==> x in s
  {
    r := [];
    var left := s;
    while left != {}
      invariant left <= s
      invariant forall x :: x in r <==> x in s - left
      invariant SortedStrings(r) && Distinct(r)
      invariant forall i | 0 <= i < |r| :: r[i] in s - left
      invariant forall x, y | x in r && y in left :: LexLE(x, y)
      decreases left
    {
      ghost var least := LeastStringExists(left);
      assert least in left && forall y | y in left :: LexLE(least, y);
      var x :| x in left && forall y | y in left :: LexLE(x, y);
      r, left := r + [x], left - {x};
    }
  }

  /** A finite nonempty set of numbers has a least element. */
  lemma {:induction false} LeastNatExists(s: set<nat>) returns (least: nat)
    requires s != {}
    ensures least in s && forall x | x in s :: least <= x
  {
    var x :| x in s;
    if s == {x} {
      return x;
    }
    assert s == {x} + (s - {x});
    var rest := LeastNatExists(s - {x});
    least := if rest <= x then rest else x;
    forall y | y in s ensures least <= y {
      assert y == x || y in s - {x};
    }
  }

  /** `min(s)` of a nonempty set of numbers. */
  method MinNat(s: set<nat>) returns (m: nat)
    requires s != {}
    ensures m in s && forall x | x in s :: m <= x
  {
    ghost var least := LeastNatExists(s);
    m :| m in s && forall x | x in s :: m <= x;
  }

  /** `sorted(s)` of a set of numbers. */
  method SortNats(s: set<nat>) returns (r: seq<nat>)
    ensures forall i, j | 0 <= i < j < |r| :: r[i] < r[j]
    ensures forall x :: x in r <==> x in s
    ensures |r| == |s|
  {
    r := [];
    var left := s;
    while left != {}
      invariant left <= s
      invariant forall x :: x in r <==> x in s - left
      invariant forall i, j | 0 <= i < j < |r| :: r[i] < r[j]
      invariant forall x, y | x in r && y in left :: x < y
      invariant forall i | 0 <= i < |r| :: r[i] in s - left
      invariant |r| + |left| == |s|
      decreases left
    {
      var x := MinNat(left);
      assert forall i | 0 <= i < |r| :: r[i] < x by {
        forall i | 0 <= i < |r| ensures r[i] < x { assert r[i] in r; }
      }
      r, left := r + [x], left - {x};
    }
  }
}
