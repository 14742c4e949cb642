/** The dependency worklist over a locked set of wheels. */
module Closure {
  import opened Results

  /** A marker that mentions an unknown runtime fact, or the value it has in the target environment. */
  datatype Marker = Absent | UnknownFact | Evaluates(active: bool)

  /** A requirement; `reference` tells whether it carries a URL or extras. */
  datatype Requirement = Requirement(name: string, specifier: string, marker: Marker, reference: bool)

  datatype Wheel = Wheel(version: string, dependencies: seq<Requirement>)

  type Wheels = map<string, Wheel>

  /** Whether a specifier contains a version. */
  type Contains = (string, string) -> bool

  datatype PackageError = UnresolvedRuntimeMarker | UnsupportedReference | DependencyClosure | UnrelatedDistribution

  predicate IsActive(r: Requirement) {
    r.marker == Absent || r.marker == Evaluates(true)
  }

  /** What is wrong with a requirement in itself. */
  function Fault(wheels: Wheels, contains: Contains, r: Requirement): Option<PackageError> {
    if r.marker == UnknownFact then Some(UnresolvedRuntimeMarker)
    else if r.marker == Evaluates(false) then None
    else if r.reference then Some(UnsupportedReference)
    else if r.name !in wheels || !contains(r.specifier, wheels[r.name].version) then Some(DependencyClosure)
    else None
  }

  // ---- reachability

  /** A set of distributions that holds what is declared and what its own members require. */
  ghost predicate IsClosed(wheels: Wheels, declared: seq<Requirement>, s: set<string>) {
    && (forall r | r in declared && IsActive(r) :: r.name in s)
    && (forall n, r | n in s && n in wheels && r in wheels[n].dependencies && IsActive(r) :: r.name in s)
  }

  ghost predicate Reached(wheels: Wheels, declared: seq<Requirement>, n: string) {
    forall s: set<string> | IsClosed(wheels, declared, s) :: n in s
  }

  /** A requirement that is declared or that a reached wheel states. */
  ghost predicate Considered(wheels: Wheels, declared: seq<Requirement>, r: Requirement) {
    r in declared || exists n :: n in wheels && Reached(wheels, declared, n) && r in wheels[n].dependencies
  }

  /** Every requirement that matters is without fault. */
  ghost predicate Satisfied(wheels: Wheels, contains: Contains, declared: seq<Requirement>) {
    forall r: Requirement | Considered(wheels, declared, r) :: Fault(wheels, contains, r) == None
  }

  /** The lock holds exactly what is reached. */
  ghost predicate Exact(wheels: Wheels, declared: seq<Requirement>) {
    forall n: string :: n in wheels <==> Reached(wheels, declared, n)
  }

  // ---- the worklist

  /** The requirement has been dealt with. */
  predicate Done(wheels: Wheels, contains: Contains, visited: set<string>, r: Requirement) {
    Fault(wheels, contains, r) == None && (IsActive(r) ==> r.name in visited)
  }

  /** Stated by something the worklist has accepted so far. */
  ghost predicate Stated(wheels: Wheels, declared: seq<Requirement>, visited: set<string>, r: Requirement) {
    r in declared || exists n :: n in visited && n in wheels && r in wheels[n].dependencies
  }

  ghost predicate Progress(wheels: Wheels, contains: Contains, declared: seq<Requirement>, visited: set<string>,
      todo: seq<Requirement>) {
    && (forall n | n in visited :: n in wheels && Reached(wheels, declared, n))
    && (forall r | r in todo :: Stated(wheels, declared, visited, r))
    && (forall r | Stated(wheels, declared, visited, r) :: r in todo || Done(wheels, contains, visited, r))
  }

  lemma StatedIsConsidered(wheels: Wheels, declared: seq<Requirement>, visited: set<string>, r: Requirement)
    requires forall n | n in visited :: n in wheels && Reached(wheels, declared, n)
    requires Stated(wheels, declared, visited, r)
    ensures Considered(wheels, declared, r)
    ensures IsActive(r) ==> Reached(wheels, declared, r.name)
  {
    if r !in declared {
      var n :| n in visited && n in wheels && r in wheels[n].dependencies;
      assert Reached(wheels, declared, n);
    }
  }

  /** One step: the popped requirement is done, and those of a newly visited wheel are still to do. */
  lemma StepProgresses(wheels: Wheels, contains: Contains, declared: seq<Requirement>, visited: set<string>,
                       todo: seq<Requirement>, r: Requirement, visited': set<string>, todo': seq<Requirement>)
    requires Progress(wheels, contains, declared, visited, todo + [r])
    requires Fault(wheels, contains, r) == None
    requires if IsActive(r) && r.name !in visited
             then r.name in wheels && visited' == visited + {r.name} && todo' == todo + wheels[r.name].dependencies
             else visited' == visited && todo' == todo
    ensures Progress(wheels, contains, declared, visited', todo')
  {
    assert r in todo + [r];
    StatedIsConsidered(wheels, declared, visited, r);
    forall q | q in todo' ensures Stated(wheels, declared, visited', q) {
      if q in todo {
        assert q in todo + [r];
      }
    }
    forall q | Stated(wheels, declared, visited', q) ensures q in todo' || Done(wheels, contains, visited', q) {
      if Stated(wheels, declared, visited, q) {
        assert q in todo + [r] || Done(wheels, contains, visited, q);
      }
    }
  }

  /** When nothing is left to do, what was visited is exactly what is reached. */
  lemma VisitedIsReached(wheels: Wheels, contains: Contains, declared: seq<Requirement>, visited: set<string>)
    requires Progress(wheels, contains, declared, visited, [])
    ensures forall n: string :: n in visited <==> Reached(wheels, declared, n)
    ensures Satisfied(wheels, contains, declared)
  {
    forall n, r | n in visited && n in wheels && r in wheels[n].dependencies && IsActive(r) ensures r.name in visited {
      assert Stated(wheels, declared, visited, r);
    }
    assert IsClosed(wheels, declared, visited) by {
      forall r | r in declared && IsActive(r) ensures r.name in visited {
        assert Stated(wheels, declared, visited, r);
      }
    }
    forall r: Requirement | Considered(wheels, declared, r) ensures Fault(wheels, contains, r) == None {
      assert Stated(wheels, declared, visited, r);
    }
  }

  /** The worklist of `resolve_wheels`. Cycles included, it ends; it succeeds exactly when every requirement that
      matters is without fault and the lock is exactly what is reached; and any error it reports is real. */
  method Resolve(wheels: Wheels, contains: Contains, declared: seq<Requirement>)
    returns (r: Result<set<string>, PackageError>)
    ensures r.Ok? <==> Satisfied(wheels, contains, declared) && Exact(wheels, declared)
    ensures r.Ok? ==> r.value == wheels.Keys
    ensures r == Err(UnrelatedDistribution) <==> Satisfied(wheels, contains, declared) && !Exact(wheels, declared)
    ensures r.Err? && r.code != UnrelatedDistribution ==>
      exists q: Requirement :: Considered(wheels, declared, q) && Fault(wheels, contains, q) == Some(r.code)
  {
    var visited: set<string> := {};
    var todo := declared;
    while todo != []
      invariant Progress(wheels, contains, declared, visited, todo)
      decreases wheels.Keys - visited, |todo|
    {
      var req := todo[|todo| - 1];
      ghost var before := todo;
      todo := todo[..|todo| - 1];
      assert before == todo + [req];
      StatedIsConsidered(wheels, declared, visited, req);
      if req.marker == UnknownFact {
        return Err(UnresolvedRuntimeMarker);
      }
      if req.marker == Evaluates(false) {
        StepProgresses(wheels, contains, declared, visited, todo, req, visited, todo);
        continue;
      }
      if req.reference {
        return Err(UnsupportedReference);
      }
      if req.name !in wheels || !contains(req.specifier, wheels[req.name].version) {
        return Err(DependencyClosure);
      }
      if req.name !in visited {
        StepProgresses(wheels, contains, declared, visited, todo, req, visited + {req.name},
          todo + wheels[req.name].dependencies);
        visited := visited + {req.name};
        todo := todo + wheels[req.name].dependencies;
      } else {
        StepProgresses(wheels, contains, declared, visited, todo, req, visited, todo);
      }
    }
    VisitedIsReached(wheels, contains, declared, visited);
    if visited != wheels.Keys {
      return Err(UnrelatedDistribution);
    }
    return Ok(visited);
  }

  /** The outcome depends on which requirements are declared, not on their order. */
  lemma DeclarationOrderIsIrrelevant(wheels: Wheels, contains: Contains, declared: seq<Requirement>,
      other: seq<Requirement>)
    requires forall r :: r in declared <==> r in other
    ensures Satisfied(wheels, contains, declared) <==> Satisfied(wheels, contains, other)
    ensures Exact(wheels, declared) <==> Exact(wheels, other)
  {
    forall s: set<string> ensures IsClosed(wheels, declared, s) <==> IsClosed(wheels, other, s) {}
    forall n: string ensures Reached(wheels, declared, n) <==> Reached(wheels, other, n) {}
    forall r: Requirement ensures Considered(wheels, declared, r) <==> Considered(wheels, other, r) {}
  }
}
