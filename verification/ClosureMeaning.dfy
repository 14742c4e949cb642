/** Reachability and satisfaction of requirements, told by chains of requirements. */
module ClosureMeaning {
  import opened Results
  import opened Closure

  /** A requirement that applies in the target environment. */
  predicate Applies(r: Requirement) {
    match r.marker case Absent => true case UnknownFact => false case Evaluates(active) => active
  }

  /** A requirement by this name that applies. */
  ghost predicate Requires(requirements: seq<Requirement>, n: string) {
    exists r :: r in requirements && Applies(r) && r.name == n
  }

  /** A chain of names: the first is declared, and each further one is required by the wheel before it. */
  ghost predicate IsChain(wheels: Wheels, declared: seq<Requirement>, chain: seq<string>) {
    && chain != [] && Requires(declared, chain[0])
    && forall k: nat | k < |chain| - 1 :: LinkAt(wheels, chain, k)
  }

  ghost predicate LinkAt(wheels: Wheels, chain: seq<string>, k: nat)
    requires k < |chain| - 1
  {
    chain[k] in wheels && Requires(wheels[chain[k]].dependencies, chain[k + 1])
  }

  ghost predicate ChainsTo(wheels: Wheels, declared: seq<Requirement>, n: string) {
    exists chain :: IsChain(wheels, declared, chain) && chain[|chain| - 1] == n
  }

  lemma {:induction false} ChainIsClosed(wheels: Wheels, declared: seq<Requirement>, chain: seq<string>, s: set<string>,
                                         k: nat)
    requires IsChain(wheels, declared, chain) && IsClosed(wheels, declared, s) && k < |chain|
    ensures chain[k] in s
  {
    if k == 0 {
      var r :| r in declared && Applies(r) && r.name == chain[0];
      assert IsActive(r);
    } else {
      ChainIsClosed(wheels, declared, chain, s, k - 1);
      assert LinkAt(wheels, chain, k - 1);
      var r :| r in wheels[chain[k - 1]].dependencies && Applies(r) && r.name == chain[k];
      assert IsActive(r);
    }
  }

  lemma ChainGrows(wheels: Wheels, declared: seq<Requirement>, n: string, r: Requirement)
    requires ChainsTo(wheels, declared, n) && n in wheels && r in wheels[n].dependencies && Applies(r)
    ensures ChainsTo(wheels, declared, r.name)
  {
    var chain :| IsChain(wheels, declared, chain) && chain[|chain| - 1] == n;
    var longer := chain + [r.name];
    forall k: nat | k < |longer| - 1 ensures LinkAt(wheels, longer, k) {
      if k < |chain| - 1 {
        assert LinkAt(wheels, chain, k);
      }
    }
    assert IsChain(wheels, declared, longer);
  }

  /** Every name that any requirement mentions. */
  ghost function Mentioned(wheels: Wheels, declared: seq<Requirement>): set<string> {
    (set r | r in declared :: r.name) + (set n, r | n in wheels && r in wheels[n].dependencies :: r.name)
  }

  /** What is reached is exactly what some chain of requirements leads to. */
  lemma ReachedByChains(wheels: Wheels, declared: seq<Requirement>, n: string)
    ensures Reached(wheels, declared, n) <==> ChainsTo(wheels, declared, n)
  {
    if ChainsTo(wheels, declared, n) {
      var chain :| IsChain(wheels, declared, chain) && chain[|chain| - 1] == n;
      forall s: set<string> | IsClosed(wheels, declared, s) ensures n in s {
        ChainIsClosed(wheels, declared, chain, s, |chain| - 1);
      }
    }
    var s := set m | m in Mentioned(wheels, declared) && ChainsTo(wheels, declared, m);
    ChainedIsClosed(wheels, declared, s);
  }

  lemma ChainedIsClosed(wheels: Wheels, declared: seq<Requirement>, s: set<string>)
    requires s == set m | m in Mentioned(wheels, declared) && ChainsTo(wheels, declared, m)
    ensures IsClosed(wheels, declared, s)
  {
    forall r | r in declared && IsActive(r) ensures r.name in s {
      assert Requires(declared, r.name) && IsChain(wheels, declared, [r.name]);
      assert [r.name][|[r.name]| - 1] == r.name;
    }
    forall n, r | n in s && n in wheels && r in wheels[n].dependencies && IsActive(r) ensures r.name in s {
      ChainGrows(wheels, declared, n, r);
    }
  }

  /** A requirement that no unknown fact decides and that, if it applies, names a locked wheel of a fitting version
      without URL or extras. */
  predicate Holds(wheels: Wheels, contains: Contains, r: Requirement) {
    && !r.marker.UnknownFact?
    && (Applies(r) ==> !r.reference && r.name in wheels && contains(r.specifier, wheels[r.name].version))
  }

  /** What is reported of a requirement that does not hold. */
  lemma FaultSays(wheels: Wheels, contains: Contains, r: Requirement)
    ensures Fault(wheels, contains, r) == Some(UnresolvedRuntimeMarker) <==> r.marker.UnknownFact?
    ensures Fault(wheels, contains, r) == Some(UnsupportedReference) <==> Applies(r) && r.reference
    ensures Fault(wheels, contains, r) == Some(DependencyClosure) <==>
      Applies(r) && !r.reference && !(r.name in wheels && contains(r.specifier, wheels[r.name].version))
    ensures Fault(wheels, contains, r) == None <==> Holds(wheels, contains, r)
  {}

  /** Stated by the declarations or by a wheel that a chain leads to. */
  ghost predicate StatedOnChain(wheels: Wheels, declared: seq<Requirement>, r: Requirement) {
    r in declared || exists n :: n in wheels && ChainsTo(wheels, declared, n) && r in wheels[n].dependencies
  }

  /** The requirements that matter are satisfied exactly when each one stated along a chain holds. */
  lemma SatisfiedExactly(wheels: Wheels, contains: Contains, declared: seq<Requirement>)
    ensures Satisfied(wheels, contains, declared) <==>
      forall r | StatedOnChain(wheels, declared, r) :: Holds(wheels, contains, r)
  {
    forall r: Requirement
      ensures Considered(wheels, declared, r) <==> StatedOnChain(wheels, declared, r)
      ensures Fault(wheels, contains, r) == None <==> Holds(wheels, contains, r)
    {
      forall n ensures Reached(wheels, declared, n) <==> ChainsTo(wheels, declared, n) {
        ReachedByChains(wheels, declared, n);
      }
    }
  }

  /** The lock is exact when it holds what chains lead to and nothing else. */
  lemma ExactExactly(wheels: Wheels, declared: seq<Requirement>)
    ensures Exact(wheels, declared) <==> forall n: string :: n in wheels <==> ChainsTo(wheels, declared, n)
  {
    forall n ensures Reached(wheels, declared, n) <==> ChainsTo(wheels, declared, n) {
      ReachedByChains(wheels, declared, n);
    }
  }
}
