/** The exact quota solver: conflict graph, connected components, count vectors of
    independent sets, and their clamped combination. */
module Constraints {
  import opened Basics
  import opened Results
  import opened Orders
  import opened Similarity
  import opened Ledger

  // ---- what the solver is asked

  type Graph = seq<set<nat>>

  ghost predicate Independent(similar: Rel, rows: seq<Row>, chosen: set<nat>) {
    && (forall i | i in chosen :: i < |rows|)
    && (forall i, j | i in chosen && j in chosen && i != j :: !Conflict(similar, rows[i], rows[j]))
  }

  function Members(rows: seq<Row>, chosen: set<nat>, key: StratumKey): set<nat> {
    set i | i in chosen && i < |rows| && KeyOf(rows[i]) == key
  }

  function Count(rows: seq<Row>, chosen: set<nat>, key: StratumKey): nat {
    |Members(rows, chosen, key)|
  }

  predicate ValidQuotas(quotas: map<StratumKey, int>) {
    && quotas.Keys == (set key | key in STRATA)
    && (forall key | key in quotas :: quotas[key] >= 0)
  }

  ghost predicate MeetsQuotas(rows: seq<Row>, chosen: set<nat>, quotas: map<StratumKey, int>)
    requires ValidQuotas(quotas)
  {
    forall key | key in STRATA :: Count(rows, chosen, key) >= quotas[key]
  }

  /** Some conflict-free selection contains at least the quota of every stratum. */
  ghost predicate Feasible(similar: Rel, rows: seq<Row>, quotas: map<StratumKey, int>)
    requires ValidQuotas(quotas)
  {
    exists chosen :: Independent(similar, rows, chosen) && MeetsQuotas(rows, chosen, quotas)
  }

  // ---- graphs

  predicate Edge(g: Graph, i: nat, j: nat) {
    i < |g| && j in g[i]
  }

  ghost predicate ValidGraph(g: Graph) {
    forall i: nat, j: nat | Edge(g, i, j) :: j < |g| && j != i && Edge(g, j, i)
  }

  /** The graph has an edge exactly between two different rows in conflict. */
  ghost predicate GraphOf(similar: Rel, rows: seq<Row>, g: Graph) {
    && |g| == |rows|
    && (forall i: nat, j: nat {:trigger Edge(g, i, j)} ::
          Edge(g, i, j) <==> i < |rows| && j < |rows| && i != j && Conflict(similar, rows[i], rows[j]))
  }

  function Below(n: nat): (s: set<nat>)
    ensures forall i: nat :: i in s <==> i < n
  {
    if n == 0 then {} else Below(n - 1) + {n - 1}
  }

  function Nodes(g: Graph): set<nat> { Below(|g|) }

  function Connected(g: Graph): set<nat> { set i | i in Nodes(g) && g[i] != {} }

  function Isolated(g: Graph): set<nat> { set i | i in Nodes(g) && g[i] == {} }

  ghost predicate Closed(g: Graph, s: set<nat>) {
    && s <= Nodes(g)
    && (forall i, j | i in s && Edge(g, i, j) :: j in s)
  }

  /** The connected component of a node: the least closed set that contains it. */
  ghost predicate IsComponentOf(g: Graph, component: set<nat>, node: nat) {
    && node in component
    && Closed(g, component)
    && (forall s | Closed(g, s) && node in s :: component <= s)
  }

  const BOUND := 20

  ghost predicate IndependentIn(g: Graph, s: set<nat>) {
    && s <= Nodes(g)
    && (forall i, j | i in s && j in s :: !Edge(g, i, j))
  }

  lemma GraphIsValid(similar: Rel, rows: seq<Row>, g: Graph)
    requires Symmetric(similar) && GraphOf(similar, rows, g)
    ensures ValidGraph(g)
  {
    forall i: nat, j: nat | Edge(g, i, j) ensures j < |g| && j != i && Edge(g, j, i) {
      assert Conflict(similar, rows[i], rows[j]) == Conflict(similar, rows[j], rows[i]);
    }
  }

  lemma GraphIndependence(similar: Rel, rows: seq<Row>, g: Graph, s: set<nat>)
    requires GraphOf(similar, rows, g)
    ensures IndependentIn(g, s) <==> Independent(similar, rows, s)
  {
    if s <= Nodes(g) {
      assert forall i, j | i in s && j in s ::
        Edge(g, i, j) <==> i != j && Conflict(similar, rows[i], rows[j]);
    }
  }

  // ---- building the graph and counting its pairs

  ghost predicate Earlier(a: nat, b: nat, i: nat, j: nat) {
    a < i || (a == i && b < j)
  }

  ghost predicate RelatedPair(rel: Rel, rows: seq<Row>, a: nat, b: nat) {
    a < b < |rows| && rel(rows[a], rows[b])
  }

  ghost function PairsUpTo(rel: Rel, rows: seq<Row>, i: nat, j: nat): set<(nat, nat)> {
    set a: nat, b: nat | a < |rows| && b < |rows| && RelatedPair(rel, rows, a, b) && Earlier(a, b, i, j) :: (a, b)
  }

  /** The unordered pairs of different rows that are related. */
  ghost function Pairs(rel: Rel, rows: seq<Row>): set<(nat, nat)> {
    PairsUpTo(rel, rows, |rows|, 0)
  }

  function NativeRel(): Rel { (a, b) => NativeConflict(a, b) }

  function BothRel(similar: Rel): Rel { (a, b) => NativeConflict(a, b) && similar(a, b) }

  lemma PairsStep(rel: Rel, rows: seq<Row>, i: nat, j: nat)
    requires i < j < |rows|
    ensures |PairsUpTo(rel, rows, i, j + 1)|
         == |PairsUpTo(rel, rows, i, j)| + (if rel(rows[i], rows[j]) then 1 else 0)
  {
    var before, after := PairsUpTo(rel, rows, i, j), PairsUpTo(rel, rows, i, j + 1);
    forall a: nat, b: nat ensures (a, b) in after <==>
      (a, b) in before || (a == i && b == j && RelatedPair(rel, rows, i, j))
    {
      assert Earlier(a, b, i, j + 1) <==> Earlier(a, b, i, j) || (a == i && b == j);
    }
    assert (i, j) !in before;
    assert after == if rel(rows[i], rows[j]) then before + {(i, j)} else before;
  }

  lemma PairsNextRow(rel: Rel, rows: seq<Row>, i: nat)
    requires i < |rows|
    ensures PairsUpTo(rel, rows, i, 0) == PairsUpTo(rel, rows, i, i + 1)
    ensures PairsUpTo(rel, rows, i, |rows|) == PairsUpTo(rel, rows, i + 1, 0)
  {}

  ghost predicate EdgeDone(a: nat, b: nat, i: nat, j: nat) {
    if a < b then Earlier(a, b, i, j) else Earlier(b, a, i, j)
  }

  /** The graph after the pairs before (i, j) were compared. */
  ghost predicate PartialGraph(similar: Rel, rows: seq<Row>, g: Graph, i: nat, j: nat) {
    && |g| == |rows|
    && (forall a: nat, b: nat {:trigger Edge(g, a, b)} :: Edge(g, a, b) <==>
          a < |rows| && b < |rows| && a != b && EdgeDone(a, b, i, j) && Conflict(similar, rows[a], rows[b]))
  }

  datatype PairCounts = PairCounts(native: nat, similarity: nat, both: nat)

  ghost predicate CountsUpTo(counts: PairCounts, similar: Rel, rows: seq<Row>, i: nat, j: nat) {
    && counts.native == |PairsUpTo(NativeRel(), rows, i, j)|
    && counts.similarity == |PairsUpTo(similar, rows, i, j)|
    && counts.both == |PairsUpTo(BothRel(similar), rows, i, j)|
  }

  lemma CountsStep(similar: Rel, rows: seq<Row>, i: nat, j: nat, counts: PairCounts, next: PairCounts)
    requires i < j < |rows|
    requires CountsUpTo(counts, similar, rows, i, j)
    requires next.native == counts.native + (if NativeConflict(rows[i], rows[j]) then 1 else 0)
    requires next.similarity == counts.similarity + (if similar(rows[i], rows[j]) then 1 else 0)
    requires next.both == counts.both + (if NativeConflict(rows[i], rows[j]) && similar(rows[i], rows[j]) then 1 else 0)
    ensures CountsUpTo(next, similar, rows, i, j + 1)
  {
    PairsStep(NativeRel(), rows, i, j);
    PairsStep(similar, rows, i, j);
    PairsStep(BothRel(similar), rows, i, j);
  }

  lemma CountsNextRow(similar: Rel, rows: seq<Row>, i: nat, counts: PairCounts)
    requires i < |rows|
    ensures CountsUpTo(counts, similar, rows, i, 0) ==> CountsUpTo(counts, similar, rows, i, i + 1)
    ensures CountsUpTo(counts, similar, rows, i, |rows|) ==> CountsUpTo(counts, similar, rows, i + 1, 0)
  {
    PairsNextRow(NativeRel(), rows, i);
    PairsNextRow(similar, rows, i);
    PairsNextRow(BothRel(similar), rows, i);
  }

  /** Adding the outcome of one comparison to the graph. */
  lemma GraphStep(similar: Rel, rows: seq<Row>, g: Graph, next: Graph, i: nat, j: nat)
    requires Symmetric(similar) && i < j < |rows|
    requires PartialGraph(similar, rows, g, i, j)
    requires next == if Conflict(similar, rows[i], rows[j]) then g[i := g[i] + {j}][j := g[j] + {i}] else g
    ensures PartialGraph(similar, rows, next, i, j + 1)
  {
    assert Conflict(similar, rows[i], rows[j]) == Conflict(similar, rows[j], rows[i]);
    forall a: nat, b: nat ensures Edge(next, a, b) <==>
      Edge(g, a, b) || (Conflict(similar, rows[i], rows[j]) && ((a == i && b == j) || (a == j && b == i)))
    {}
    forall a: nat, b: nat ensures EdgeDone(a, b, i, j + 1) <==>
      EdgeDone(a, b, i, j) || (a == i && b == j) || (a == j && b == i)
    {}
  }

  /** The inner loop: row i against every later row. */
  method CompareRow(similar: Rel, rows: seq<Row>, i: nat, before: Graph, sofar: PairCounts)
    returns (adjacency: Graph, counts: PairCounts)
    requires Symmetric(similar) && i < |rows|
    requires PartialGraph(similar, rows, before, i, 0) && CountsUpTo(sofar, similar, rows, i, 0)
    ensures PartialGraph(similar, rows, adjacency, i + 1, 0) && CountsUpTo(counts, similar, rows, i + 1, 0)
  {
    adjacency, counts := before, sofar;
    CountsNextRow(similar, rows, i, counts);
    for j := i + 1 to |rows|
      invariant PartialGraph(similar, rows, adjacency, i, j)
      invariant CountsUpTo(counts, similar, rows, i, j)
    {
      var isNative := NativeConflict(rows[i], rows[j]);
      var isSimilar := similar(rows[i], rows[j]);
      ghost var oldCounts, oldGraph := counts, adjacency;
      counts := PairCounts(
        counts.native + (if isNative then 1 else 0),
        counts.similarity + (if isSimilar then 1 else 0),
        counts.both + (if isNative && isSimilar then 1 else 0));
      CountsStep(similar, rows, i, j, oldCounts, counts);
      if isNative || isSimilar {
        adjacency := adjacency[i := adjacency[i] + {j}];
        adjacency := adjacency[j := adjacency[j] + {i}];
      }
      GraphStep(similar, rows, oldGraph, adjacency, i, j);
    }
    CountsNextRow(similar, rows, i, counts);
  }

  method CompareRows(similar: Rel, rows: seq<Row>) returns (adjacency: Graph, counts: PairCounts)
    requires Symmetric(similar)
    ensures GraphOf(similar, rows, adjacency)
    ensures CountsUpTo(counts, similar, rows, |rows|, 0)
  {
    adjacency := seq(|rows|, _ => {});
    counts := PairCounts(0, 0, 0);
    for i := 0 to |rows|
      invariant PartialGraph(similar, rows, adjacency, i, 0)
      invariant CountsUpTo(counts, similar, rows, i, 0)
    {
      adjacency, counts := CompareRow(similar, rows, i, adjacency, counts);
    }
  }

  // ---- connected components

  function Elements(s: seq<nat>): set<nat> { set x | x in s }

  /** An enumeration of a set in some order. */
  method Enumerate(s: set<nat>) returns (r: seq<nat>)
    ensures Elements(r) == s
  {
    r := [];
    var left := s;
    while left != {}
      invariant left <= s && Elements(r) == s - left
      decreases left
    {
      var x :| x in left;
      assert Elements(r + [x]) == Elements(r) + {x};
      r, left := r + [x], left - {x};
    }
  }

  lemma NeighboursAreNodes(g: Graph, i: nat)
    requires ValidGraph(g) && i < |g|
    ensures g[i] <= Nodes(g)
    ensures forall s | Closed(g, s) && i in s :: g[i] <= s
  {
    forall j | j in g[i] ensures j in Nodes(g) { assert Edge(g, i, j); }
    forall s, j | Closed(g, s) && i in s && j in g[i] ensures j in s { assert Edge(g, i, j); }
  }

  /** The depth-first search of one component. */
  method Explore(adjacency: Graph, start: nat) returns (component: set<nat>)
    requires ValidGraph(adjacency) && start < |adjacency|
    ensures IsComponentOf(adjacency, component, start)
  {
    component := {};
    var frontier := [start];
    while frontier != []
      invariant component <= Nodes(adjacency) && Elements(frontier) <= Nodes(adjacency)
      invariant start in component || start in frontier
      invariant forall i | i in component :: adjacency[i] <= component + Elements(frontier)
      invariant forall s | Closed(adjacency, s) && start in s :: component + Elements(frontier) <= s
      decreases Nodes(adjacency) - component, |frontier|
    {
      var i := frontier[|frontier| - 1];
      ghost var before := frontier;
      frontier := frontier[..|frontier| - 1];
      assert Elements(before) == Elements(frontier) + {i} by {
        assert before == frontier + [i];
      }
      if i in component {
        continue;
      }
      component := component + {i};
      NeighboursAreNodes(adjacency, i);
      var more := Enumerate(adjacency[i] - component);
      assert Elements(frontier + more) == Elements(frontier) + Elements(more);
      frontier := frontier + more;
    }
  }

  lemma ComplementClosed(g: Graph, s: set<nat>)
    requires ValidGraph(g) && Closed(g, s)
    ensures Closed(g, Nodes(g) - s)
  {}

  lemma ConnectedClosed(g: Graph)
    requires ValidGraph(g)
    ensures Closed(g, Connected(g))
  {}

  ghost function Union(components: seq<seq<nat>>): set<nat> {
    if components == [] then {} else Union(components[..|components| - 1]) + Elements(components[|components| - 1])
  }

  /** A list of sorted, pairwise disjoint connected components. */
  ghost predicate AreComponents(g: Graph, components: seq<seq<nat>>) {
    && (forall k | 0 <= k < |components| :: components[k] != []
          && Increasing(components[k])
          && IsComponentOf(g, Elements(components[k]), components[k][0]))
    && (forall k | 0 <= k < |components| :: Elements(components[k]) !! Union(components[..k]))
  }

  lemma {:induction false} UnionIsClosed(g: Graph, components: seq<seq<nat>>)
    requires AreComponents(g, components)
    ensures Closed(g, Union(components))
  {
    if components != [] {
      var last := |components| - 1;
      assert forall k | 0 <= k < last :: components[..last][..k] == components[..k];
      UnionIsClosed(g, components[..last]);
    }
  }

  /** A component found from a node that is still free touches no earlier component. */
  lemma AddComponent(g: Graph, components: seq<seq<nat>>, ordered: seq<nat>, remaining: set<nat>)
    requires ValidGraph(g) && AreComponents(g, components)
    requires Union(components) == Connected(g) - remaining && remaining <= Connected(g)
    requires ordered != [] && ordered[0] in remaining
    requires Increasing(ordered)
    requires IsComponentOf(g, Elements(ordered), ordered[0])
    ensures AreComponents(g, components + [ordered])
    ensures Elements(ordered) <= remaining
    ensures Union(components + [ordered]) == Connected(g) - (remaining - Elements(ordered))
  {
    UnionIsClosed(g, components);
    ComplementClosed(g, Union(components));
    ConnectedClosed(g);
    assert Elements(ordered) <= Nodes(g) - Union(components);
    assert Elements(ordered) <= Connected(g);
    var longer := components + [ordered];
    assert longer[..|components|] == components;
    forall k | 0 <= k < |components| ensures longer[..k] == components[..k] {}
  }

  method ConflictComponents(adjacency: Graph) returns (components: seq<seq<nat>>)
    requires ValidGraph(adjacency)
    ensures AreComponents(adjacency, components)
    ensures Union(components) == Connected(adjacency)
  {
    var remaining := Connected(adjacency);
    components := [];
    while remaining != {}
      invariant remaining <= Connected(adjacency)
      invariant AreComponents(adjacency, components)
      invariant Union(components) == Connected(adjacency) - remaining
      decreases remaining
    {
      var start := MinNat(remaining);
      var component := Explore(adjacency, start);
      var ordered := SortNats(component);
      ComponentStart(adjacency, components, ordered, component, remaining, start);
      AddComponent(adjacency, components, ordered, remaining);
      components := components + [ordered];
      remaining := remaining - component;
    }
  }

  /** The node a search starts from is the least of its component. */
  lemma ComponentStart(g: Graph, components: seq<seq<nat>>, ordered: seq<nat>, component: set<nat>,
                       remaining: set<nat>, start: nat)
    requires ValidGraph(g) && AreComponents(g, components)
    requires Union(components) == Connected(g) - remaining && remaining <= Connected(g)
    requires start in remaining && (forall x | x in remaining :: start <= x)
    requires IsComponentOf(g, component, start)
    requires Increasing(ordered)
    requires forall x :: x in ordered <==> x in component
    ensures Elements(ordered) == component && ordered != [] && ordered[0] == start
  {
    UnionIsClosed(g, components);
    ComplementClosed(g, Union(components));
    ConnectedClosed(g);
    assert component <= remaining;
    assert start in ordered;
    assert ordered[0] in ordered;
    var k :| 0 <= k < |ordered| && ordered[k] == start;
  }

  // ---- count vectors

  type Vector = seq<nat>

  ghost predicate ForStrata(v: Vector) { |v| == |STRATA| }

  /** The counts of a set of rows, each cut off at its quota. */
  function Clamped(rows: seq<Row>, chosen: set<nat>, limits: Vector): (v: Vector)
    requires |limits| == |STRATA|
    ensures |v| == |STRATA|
  {
    seq(|STRATA|, t requires 0 <= t < |STRATA| => Min(Count(rows, chosen, STRATA[t]), limits[t]))
  }

  function Combine(x: Vector, y: Vector, limits: Vector): (v: Vector)
    requires |x| == |y| == |limits|
    ensures |v| == |limits|
  {
    seq(|limits|, t requires 0 <= t < |limits| => Min(x[t] + y[t], limits[t]))
  }

  lemma CountDisjoint(rows: seq<Row>, a: set<nat>, b: set<nat>, key: StratumKey)
    requires a !! b
    ensures Count(rows, a + b, key) == Count(rows, a, key) + Count(rows, b, key)
  {
    assert Members(rows, a + b, key) == Members(rows, a, key) + Members(rows, b, key);
  }

  /** Clamping commutes with adding the counts of disjoint sets. */
  lemma ClampedDisjoint(rows: seq<Row>, a: set<nat>, b: set<nat>, limits: Vector)
    requires a !! b && ForStrata(limits)
    ensures Clamped(rows, a + b, limits) == Combine(Clamped(rows, a, limits), Clamped(rows, b, limits), limits)
  {
    forall t | 0 <= t < |STRATA|
      ensures Clamped(rows, a + b, limits)[t]
           == Combine(Clamped(rows, a, limits), Clamped(rows, b, limits), limits)[t]
    {
      CountDisjoint(rows, a, b, STRATA[t]);
    }
  }

  /** The vector is the clamped count of some independent subset of the domain. */
  ghost predicate Realised(rows: seq<Row>, g: Graph, domain: set<nat>, limits: Vector, v: Vector)
    requires ForStrata(limits)
  {
    exists s :: s <= domain && IndependentIn(g, s) && v == Clamped(rows, s, limits)
  }

  ghost predicate Vectors(rows: seq<Row>, g: Graph, domain: set<nat>, limits: Vector, vectors: set<Vector>)
    requires ForStrata(limits)
  {
    forall v :: v in vectors <==> Realised(rows, g, domain, limits, v)
  }

  lemma IndependentUnion(g: Graph, a: set<nat>, b: set<nat>, left: set<nat>, right: set<nat>)
    requires ValidGraph(g) && Closed(g, left) && Closed(g, right) && left !! right
    requires a <= left && b <= right
    ensures IndependentIn(g, a + b) <==> IndependentIn(g, a) && IndependentIn(g, b)
  {}

  // ---- subsets of one component, by the bits of a number

  function Pow2(n: nat): nat {
    if n == 0 then 1 else 2 * Pow2(n - 1)
  }

  /** Bit k of a number. */
  predicate Bit(bits: nat, k: nat) {
    if k == 0 then bits % 2 == 1 else Bit(bits / 2, k - 1)
  }

  function Indices(component: seq<nat>, bits: nat): set<nat> {
    set k: nat | k < |component| && Bit(bits, k) :: component[k]
  }

  /** Every subset of a component is enumerated. */
  lemma {:induction false} SubsetHasBits(component: seq<nat>, s: set<nat>) returns (bits: nat)
    requires Increasing(component) && s <= Elements(component)
    ensures bits < Pow2(|component|) && Indices(component, bits) == s
  {
    if component == [] {
      bits := 0;
    } else {
      var first, rest := component[0], component[1..];
      assert component == [first] + rest;
      var half := SubsetHasBits(rest, s - {first});
      bits := 2 * half + if first in s then 1 else 0;
      IndicesShift(component, bits, half);
    }
  }

  /** The subset chosen by a number: its last bit decides the first node. */
  lemma IndicesShift(component: seq<nat>, bits: nat, half: nat)
    requires component != [] && half == bits / 2
    ensures Indices(component, bits) == Indices(component[1..], half) + (if bits % 2 == 1 then {component[0]} else {})
  {
    var rest := component[1..];
    forall x | x in Indices(component, bits)
      ensures x in Indices(rest, half) || (bits % 2 == 1 && x == component[0])
    {
      var k: nat :| k < |component| && Bit(bits, k) && component[k] == x;
      if k > 0 {
        assert rest[k - 1] == x && Bit(half, k - 1);
      }
    }
    forall x | x in Indices(rest, half) ensures x in Indices(component, bits) {
      var k: nat :| k < |rest| && Bit(half, k) && rest[k] == x;
      assert component[k + 1] == x && Bit(bits, k + 1);
    }
    if bits % 2 == 1 {
      assert Bit(bits, 0) && component[0] in Indices(component, bits);
    }
  }

  ghost predicate LocalUpTo(rows: seq<Row>, g: Graph, component: seq<nat>, limits: Vector, bound: nat, v: Vector)
    requires ForStrata(limits)
  {
    exists bits: nat :: bits < bound && IndependentIn(g, Indices(component, bits))
      && v == Clamped(rows, Indices(component, bits), limits)
  }

  /** The test that skips a subset: some member has a neighbour in it. */
  predicate SomeEdge(g: Graph, indices: set<nat>) {
    exists i | i in indices :: i < |g| && g[i] * indices != {}
  }

  lemma SomeEdgeIsDependence(g: Graph, indices: set<nat>)
    requires indices <= Nodes(g)
    ensures SomeEdge(g, indices) <==> !IndependentIn(g, indices)
  {
    if SomeEdge(g, indices) {
      var i :| i in indices && i < |g| && g[i] * indices != {};
      var j :| j in g[i] * indices;
      assert Edge(g, i, j);
    }
    if !IndependentIn(g, indices) {
      var i, j :| i in indices && j in indices && Edge(g, i, j);
      assert j in g[i] * indices;
    }
  }

  /** The clamped vectors of all independent subsets of one component. */
  method LocalVectors(rows: seq<Row>, adjacency: Graph, component: seq<nat>, limits: Vector)
    returns (local: set<Vector>)
    requires ForStrata(limits) && Increasing(component) && Elements(component) <= Nodes(adjacency)
    ensures Vectors(rows, adjacency, Elements(component), limits, local)
  {
    local := {};
    for bits := 0 to Pow2(|component|)
      invariant forall v :: v in local <==> LocalUpTo(rows, adjacency, component, limits, bits, v)
    {
      var indices := Indices(component, bits);
      assert indices <= Elements(component);
      SomeEdgeIsDependence(adjacency, indices);
      LocalStep(rows, adjacency, component, limits, bits);
      if SomeEdge(adjacency, indices) {
        continue;
      }
      local := local + {Clamped(rows, indices, limits)};
    }
    LocalIsExhaustive(rows, adjacency, component, limits);
  }

  lemma LocalStep(rows: seq<Row>, g: Graph, component: seq<nat>, limits: Vector, bits: nat)
    requires ForStrata(limits)
    ensures forall v :: LocalUpTo(rows, g, component, limits, bits + 1, v) <==>
      LocalUpTo(rows, g, component, limits, bits, v)
      || (IndependentIn(g, Indices(component, bits)) && v == Clamped(rows, Indices(component, bits), limits))
  {
    forall v ensures LocalUpTo(rows, g, component, limits, bits + 1, v) <==>
      LocalUpTo(rows, g, component, limits, bits, v)
      || (IndependentIn(g, Indices(component, bits)) && v == Clamped(rows, Indices(component, bits), limits))
    {
      if LocalUpTo(rows, g, component, limits, bits + 1, v) {
        var b: nat :| b < bits + 1 && IndependentIn(g, Indices(component, b))
          && v == Clamped(rows, Indices(component, b), limits);
        assert b == bits || b < bits;
      }
    }
  }

  lemma LocalIsExhaustive(rows: seq<Row>, g: Graph, component: seq<nat>, limits: Vector)
    requires ForStrata(limits) && Increasing(component)
    ensures forall v :: LocalUpTo(rows, g, component, limits, Pow2(|component|), v)
                   <==> Realised(rows, g, Elements(component), limits, v)
  {
    forall v ensures LocalUpTo(rows, g, component, limits, Pow2(|component|), v)
                <==> Realised(rows, g, Elements(component), limits, v)
    {
      if LocalUpTo(rows, g, component, limits, Pow2(|component|), v) {
        var b: nat :| b < Pow2(|component|) && IndependentIn(g, Indices(component, b))
          && v == Clamped(rows, Indices(component, b), limits);
        assert Indices(component, b) <= Elements(component);
      }
      if Realised(rows, g, Elements(component), limits, v) {
        var s :| s <= Elements(component) && IndependentIn(g, s) && v == Clamped(rows, s, limits);
        var bits := SubsetHasBits(component, s);
      }
    }
  }

  function StrataCounts(rows: seq<Row>, chosen: set<nat>): (v: Vector)
    ensures |v| == |STRATA|
  {
    seq(|STRATA|, t requires 0 <= t < |STRATA| => Count(rows, chosen, STRATA[t]))
  }

  function Limits(quotas: map<StratumKey, int>): (limits: Vector)
    requires ValidQuotas(quotas)
    ensures |limits| == |STRATA|
  {
    seq(|STRATA|, t requires 0 <= t < |STRATA| => assert STRATA[t] in STRATA; quotas[STRATA[t]])
  }

  // ---- combining the components

  function CombineAll(possible: set<Vector>, local: set<Vector>, limits: Vector): set<Vector> {
    set x, y | x in possible && y in local && |x| == |y| == |limits| :: Combine(x, y, limits)
  }

  lemma CombinedIsRealised(rows: seq<Row>, g: Graph, left: set<nat>, right: set<nat>, limits: Vector,
                           x: Vector, y: Vector)
    requires ForStrata(limits) && ValidGraph(g) && Closed(g, left) && Closed(g, right) && left !! right
    requires Realised(rows, g, left, limits, x) && Realised(rows, g, right, limits, y)
    requires |x| == |y| == |limits|
    ensures Realised(rows, g, left + right, limits, Combine(x, y, limits))
  {
    var a :| a <= left && IndependentIn(g, a) && x == Clamped(rows, a, limits);
    var b :| b <= right && IndependentIn(g, b) && y == Clamped(rows, b, limits);
    IndependentUnion(g, a, b, left, right);
    ClampedDisjoint(rows, a, b, limits);
    assert a + b <= left + right;
  }

  lemma RealisedIsCombined(rows: seq<Row>, g: Graph, left: set<nat>, right: set<nat>, limits: Vector, v: Vector)
    returns (x: Vector, y: Vector)
    requires ForStrata(limits) && ValidGraph(g) && Closed(g, left) && Closed(g, right) && left !! right
    requires Realised(rows, g, left + right, limits, v)
    ensures Realised(rows, g, left, limits, x) && Realised(rows, g, right, limits, y)
    ensures |x| == |y| == |limits| && v == Combine(x, y, limits)
  {
    var s :| s <= left + right && IndependentIn(g, s) && v == Clamped(rows, s, limits);
    var a, b := s * left, s * right;
    assert s == a + b;
    IndependentUnion(g, a, b, left, right);
    ClampedDisjoint(rows, a, b, limits);
    x, y := Clamped(rows, a, limits), Clamped(rows, b, limits);
  }

  lemma CombineStep(rows: seq<Row>, g: Graph, left: set<nat>, right: set<nat>, limits: Vector,
                    possible: set<Vector>, local: set<Vector>, next: set<Vector>)
    requires ForStrata(limits) && ValidGraph(g) && Closed(g, left) && Closed(g, right) && left !! right
    requires Vectors(rows, g, left, limits, possible) && Vectors(rows, g, right, limits, local)
    requires next == CombineAll(possible, local, limits)
    ensures Vectors(rows, g, left + right, limits, next)
  {
    forall v ensures v in next <==> Realised(rows, g, left + right, limits, v) {
      if v in next {
        var x, y :| x in possible && y in local && |x| == |y| == |limits| && v == Combine(x, y, limits);
        CombinedIsRealised(rows, g, left, right, limits, x, y);
      }
      if Realised(rows, g, left + right, limits, v) {
        var x, y := RealisedIsCombined(rows, g, left, right, limits, v);
      }
    }
  }

  /** Rows without conflicts join every independent set. */
  lemma IsolatedJoin(g: Graph)
    requires ValidGraph(g)
    ensures Closed(g, Isolated(g)) && Isolated(g) !! Connected(g) && Nodes(g) == Isolated(g) + Connected(g)
    ensures IndependentIn(g, Isolated(g))
  {
    forall i: nat, j: nat | i in Isolated(g) ensures !Edge(g, i, j) {}
  }

  lemma MembersMonotone(rows: seq<Row>, a: set<nat>, b: set<nat>, key: StratumKey)
    requires a <= b
    ensures Count(rows, a, key) <= Count(rows, b, key)
  {
    var more := b - a;
    assert b == a + more;
    CountDisjoint(rows, a, more, key);
  }

  /** Vector and conflict-free counts together reach every quota. */
  predicate Covers(vector: Vector, isolated: Vector, limits: Vector) {
    && |vector| == |isolated| == |limits| == |STRATA|
    && (forall t | 0 <= t < |STRATA| :: vector[t] + isolated[t] >= limits[t])
  }

  predicate SomeCovers(possible: set<Vector>, isolated: Vector, limits: Vector) {
    exists v | v in possible :: Covers(v, isolated, limits)
  }

  lemma VectorsSound(similar: Rel, rows: seq<Row>, g: Graph, quotas: map<StratumKey, int>, v: Vector)
    requires Symmetric(similar) && GraphOf(similar, rows, g) && ValidQuotas(quotas)
    requires Realised(rows, g, Connected(g), Limits(quotas), v)
    requires Covers(v, StrataCounts(rows, Isolated(g)), Limits(quotas))
    ensures Feasible(similar, rows, quotas)
  {
    GraphIsValid(similar, rows, g);
    IsolatedJoin(g);
    ConnectedClosed(g);
    var s :| s <= Connected(g) && IndependentIn(g, s) && v == Clamped(rows, s, Limits(quotas));
    var chosen := s + Isolated(g);
    IndependentUnion(g, s, Isolated(g), Connected(g), Isolated(g));
    GraphIndependence(similar, rows, g, chosen);
    forall key | key in STRATA ensures Count(rows, chosen, key) >= quotas[key] {
      var t :| 0 <= t < |STRATA| && STRATA[t] == key;
      CountDisjoint(rows, s, Isolated(g), key);
      assert v[t] + Count(rows, Isolated(g), key) >= quotas[key];
    }
  }

  lemma VectorsComplete(similar: Rel, rows: seq<Row>, g: Graph, quotas: map<StratumKey, int>) returns (v: Vector)
    requires Symmetric(similar) && GraphOf(similar, rows, g) && ValidQuotas(quotas)
    requires Feasible(similar, rows, quotas)
    ensures Realised(rows, g, Connected(g), Limits(quotas), v)
    ensures Covers(v, StrataCounts(rows, Isolated(g)), Limits(quotas))
  {
    GraphIsValid(similar, rows, g);
    IsolatedJoin(g);
    ConnectedClosed(g);
    var chosen :| Independent(similar, rows, chosen) && MeetsQuotas(rows, chosen, quotas);
    GraphIndependence(similar, rows, g, chosen);
    var s, free := chosen * Connected(g), chosen * Isolated(g);
    assert chosen == s + free;
    IndependentUnion(g, s, free, Connected(g), Isolated(g));
    v := Clamped(rows, s, Limits(quotas));
    forall t | 0 <= t < |STRATA| ensures v[t] + Count(rows, Isolated(g), STRATA[t]) >= quotas[STRATA[t]] {
      CountDisjoint(rows, s, free, STRATA[t]);
      MembersMonotone(rows, free, Isolated(g), STRATA[t]);
      assert STRATA[t] in STRATA;
    }
  }

  /** Some vector together with the conflict-free rows covers the quotas exactly when
      some independent set of all rows does. */
  lemma FeasibleByVectors(similar: Rel, rows: seq<Row>, g: Graph, quotas: map<StratumKey, int>, possible: set<Vector>)
    requires Symmetric(similar) && GraphOf(similar, rows, g) && ValidQuotas(quotas)
    requires Vectors(rows, g, Connected(g), Limits(quotas), possible)
    ensures SomeCovers(possible, StrataCounts(rows, Isolated(g)), Limits(quotas)) <==> Feasible(similar, rows, quotas)
  {
    if SomeCovers(possible, StrataCounts(rows, Isolated(g)), Limits(quotas)) {
      var v :| v in possible && Covers(v, StrataCounts(rows, Isolated(g)), Limits(quotas));
      VectorsSound(similar, rows, g, quotas, v);
    }
    if Feasible(similar, rows, quotas) {
      var v := VectorsComplete(similar, rows, g, quotas);
    }
  }

  // ---- the solver

  datatype Summary = Summary(
    pairComparisons: nat,
    counts: PairCounts,
    capacity: Vector,
    conflictFree: Vector,
    componentSizes: seq<nat>,
    feasible: bool)

  datatype SummaryError = InvalidQuotas | ComponentTooLarge

  /** Some connected component of conflicting rows has more rows than the solver takes on. */
  ghost predicate SomeComponentTooLarge(similar: Rel, rows: seq<Row>) {
    exists g, component, node ::
      GraphOf(similar, rows, g) && IsComponentOf(g, component, node) && |component| > 20
  }

  /** The sizes are those of the connected components of the conflicting rows, each listed once. */
  ghost predicate SizesOfComponents(similar: Rel, rows: seq<Row>, sizes: seq<nat>) {
    exists g, components :: GraphOf(similar, rows, g) && AreListed(g, components, sizes)
  }

  ghost predicate AreListed(g: Graph, components: seq<seq<nat>>, sizes: seq<nat>) {
    && AreComponents(g, components) && Union(components) == Connected(g)
    && |sizes| == |components| && (forall k | 0 <= k < |components| :: sizes[k] == |components[k]|)
  }

  ghost predicate IsFree(similar: Rel, rows: seq<Row>, i: nat)
    requires i < |rows|
  {
    forall j: nat | j < |rows| && j != i :: !Conflict(similar, rows[i], rows[j])
  }

  /** The rows in conflict with no other. */
  ghost function FreeOfConflict(similar: Rel, rows: seq<Row>): set<nat> {
    set i: nat | i < |rows| && IsFree(similar, rows, i)
  }

  lemma IsolatedAreFree(similar: Rel, rows: seq<Row>, g: Graph)
    requires GraphOf(similar, rows, g)
    ensures Isolated(g) == FreeOfConflict(similar, rows)
  {
    forall i: nat | i < |rows| ensures g[i] == {} <==> IsFree(similar, rows, i) {
      if g[i] != {} {
        var j :| j in g[i];
        assert Edge(g, i, j);
        assert j < |rows| && Conflict(similar, rows[i], rows[j]);
      } else {
        forall j: nat | j < |rows| && j != i ensures !Conflict(similar, rows[i], rows[j]) {
          assert !Edge(g, i, j);
        }
      }
    }
  }

  /** What the reported numbers count. */
  ghost predicate Counted(summary: Summary, similar: Rel, rows: seq<Row>) {
    && 2 * summary.pairComparisons == |rows| * (|rows| - 1)
    && summary.capacity == StrataCounts(rows, Below(|rows|))
    && summary.conflictFree == StrataCounts(rows, FreeOfConflict(similar, rows))
    && SizesOfComponents(similar, rows, summary.componentSizes)
  }

  lemma NumbersCount(similar: Rel, rows: seq<Row>, g: Graph, sizes: seq<nat>, counts: PairCounts, feasible: bool)
    requires GraphOf(similar, rows, g) && SizesOfComponents(similar, rows, sizes)
    ensures Counted(SummaryOf(rows, g, sizes, counts, feasible), similar, rows)
  {
    IsolatedAreFree(similar, rows, g);
    HalfOfPairs(|rows|);
  }

  function SummaryOf(rows: seq<Row>, g: Graph, sizes: seq<nat>, counts: PairCounts, feasible: bool): Summary {
    Summary(|rows| * (|rows| - 1) / 2, counts, StrataCounts(rows, Below(|rows|)), StrataCounts(rows, Isolated(g)),
            sizes, feasible)
  }

  lemma HalfOfPairs(n: nat)
    ensures 2 * (n * (n - 1) / 2) == n * (n - 1)
  {
    if n > 0 {
      HalfOfPairs(n - 1);
      assert n * (n - 1) == (n - 1) * (n - 2) + 2 * (n - 1);
    }
  }

  lemma GraphUnique(similar: Rel, rows: seq<Row>, g: Graph, h: Graph)
    requires GraphOf(similar, rows, g) && GraphOf(similar, rows, h)
    ensures g == h
  {
    forall i: nat | i < |g| ensures g[i] == h[i] {
      forall j: nat ensures j in g[i] <==> j in h[i] {
        assert Edge(g, i, j) <==> Edge(h, i, j);
      }
    }
  }

  lemma StrictSize(s: seq<nat>)
    requires Increasing(s)
    ensures |Elements(s)| == |s|
  {
    if s != [] {
      var last := |s| - 1;
      assert s == s[..last] + [s[last]];
      StrictSize(s[..last]);
      assert Elements(s) == Elements(s[..last]) + {s[last]};
      assert s[last] !in s[..last];
    }
  }

  /** When every listed component is small enough, every component is. */
  lemma AllComponentsSmall(similar: Rel, rows: seq<Row>, g: Graph, components: seq<seq<nat>>)
    requires Symmetric(similar) && GraphOf(similar, rows, g)
    requires AreComponents(g, components) && Union(components) == Connected(g)
    requires forall k | 0 <= k < |components| :: |components[k]| <= BOUND
    ensures !SomeComponentTooLarge(similar, rows)
  {
    GraphIsValid(similar, rows, g);
    forall h, component, node | GraphOf(similar, rows, h) && IsComponentOf(h, component, node)
      ensures |component| <= BOUND
    {
      GraphUnique(similar, rows, g, h);
      if node in Connected(g) {
        var k := InSome(components, node);
        assert component <= Elements(components[k]);
        SubsetSize(component, Elements(components[k]));
        StrictSize(components[k]);
      } else {
        assert Closed(g, {node});
        SubsetSize(component, {node});
      }
    }
  }

  lemma SubsetSize(a: set<nat>, b: set<nat>)
    requires a <= b
    ensures |a| <= |b|
  {
    assert b == a + (b - a);
  }

  lemma InSome(components: seq<seq<nat>>, node: nat) returns (k: nat)
    requires node in Union(components)
    ensures k < |components| && node in components[k]
  {
    var last := |components| - 1;
    if node in Elements(components[last]) {
      k := last;
    } else {
      k := InSome(components[..last], node);
    }
  }

  lemma NoComponents(rows: seq<Row>, g: Graph, limits: Vector)
    requires ForStrata(limits)
    ensures Vectors(rows, g, {}, limits, {seq(|STRATA|, _ => 0)})
  {
    var zero: Vector := seq(|STRATA|, _ => 0);
    assert Clamped(rows, {}, limits) == zero by {
      forall key ensures Members(rows, {}, key) == {} {}
    }
    forall v ensures v in {zero} <==> Realised(rows, g, {}, limits, v) {
      if v == zero {
        var none: set<nat> := {};
        assert none <= {} && IndependentIn(g, none) && v == Clamped(rows, none, limits);
      }
    }
  }

  lemma PrefixComponents(g: Graph, components: seq<seq<nat>>, k: nat)
    requires AreComponents(g, components) && k < |components|
    ensures Closed(g, Union(components[..k])) && Closed(g, Elements(components[k]))
    ensures Union(components[..k]) !! Elements(components[k])
    ensures Union(components[..k + 1]) == Union(components[..k]) + Elements(components[k])
  {
    forall j | 0 <= j < k ensures components[..k][..j] == components[..j] {}
    UnionIsClosed(g, components[..k]);
    assert components[..k + 1][..k] == components[..k];
  }

  datatype Combination = Combination(possible: set<Vector>, sizes: seq<nat>)

  lemma CombineComponent(rows: seq<Row>, g: Graph, components: seq<seq<nat>>, k: nat, limits: Vector,
                         possible: set<Vector>, local: set<Vector>, next: set<Vector>)
    requires ForStrata(limits) && ValidGraph(g) && AreComponents(g, components) && k < |components|
    requires Vectors(rows, g, Union(components[..k]), limits, possible)
    requires Vectors(rows, g, Elements(components[k]), limits, local)
    requires next == CombineAll(possible, local, limits)
    ensures Vectors(rows, g, Union(components[..k + 1]), limits, next)
  {
    PrefixComponents(g, components, k);
    CombineStep(rows, g, Union(components[..k]), Elements(components[k]), limits, possible, local, next);
  }

  /** The clamped vectors of all independent sets of conflicting rows, component by component. */
  method CombineComponents(rows: seq<Row>, adjacency: Graph, components: seq<seq<nat>>, limits: Vector)
    returns (r: Result<Combination, SummaryError>)
    requires ForStrata(limits) && ValidGraph(adjacency) && AreComponents(adjacency, components)
    ensures r.Ok? ==> Vectors(rows, adjacency, Union(components), limits, r.value.possible)
    ensures r.Ok? ==> |r.value.sizes| == |components|
                      && forall k | 0 <= k < |components| :: r.value.sizes[k] == |components[k]| <= BOUND
    ensures r.Err? ==> r.code == ComponentTooLarge && exists k :: 0 <= k < |components| && |components[k]| > BOUND
  {
    var possible: set<Vector> := {seq(|STRATA|, _ => 0)};
    var sizes := [];
    NoComponents(rows, adjacency, limits);
    for k := 0 to |components|
      invariant Vectors(rows, adjacency, Union(components[..k]), limits, possible)
      invariant |sizes| == k && forall j | 0 <= j < k :: sizes[j] == |components[j]| <= BOUND
    {
      if |components[k]| > BOUND {
        return Err(ComponentTooLarge);
      }
      sizes := sizes + [|components[k]|];
      var local := LocalVectors(rows, adjacency, components[k], limits);
      ghost var before := possible;
      possible := CombineAll(possible, local, limits);
      CombineComponent(rows, adjacency, components, k, limits, before, local, possible);
    }
    assert components[..|components|] == components;
    r := Ok(Combination(possible, sizes));
  }

  lemma LargeComponent(similar: Rel, rows: seq<Row>, g: Graph, components: seq<seq<nat>>, k: nat)
    requires GraphOf(similar, rows, g) && AreComponents(g, components)
    requires k < |components| && |components[k]| > BOUND
    ensures SomeComponentTooLarge(similar, rows)
  {
    StrictSize(components[k]);
    assert IsComponentOf(g, Elements(components[k]), components[k][0]);
  }

  /** The conflict structure of the rows, or the refusal of a component over the bound. */
  method SolveGraph(similar: Rel, rows: seq<Row>, adjacency: Graph, limits: Vector)
    returns (r: Result<Combination, SummaryError>)
    requires Symmetric(similar) && GraphOf(similar, rows, adjacency) && ForStrata(limits)
    ensures r.Ok? <==> !SomeComponentTooLarge(similar, rows)
    ensures r.Ok? ==> Vectors(rows, adjacency, Connected(adjacency), limits, r.value.possible)
    ensures r.Ok? ==> SizesOfComponents(similar, rows, r.value.sizes)
    ensures r.Err? ==> r.code == ComponentTooLarge
  {
    GraphIsValid(similar, rows, adjacency);
    var components := ConflictComponents(adjacency);
    r := CombineComponents(rows, adjacency, components, limits);
    if r.Err? {
      ghost var k :| 0 <= k < |components| && |components[k]| > BOUND;
      LargeComponent(similar, rows, adjacency, components, k);
    } else {
      AllComponentsSmall(similar, rows, adjacency, components);
      assert AreListed(adjacency, components, r.value.sizes);
    }
  }

  /** `constraint_summary`: exact, within its component bound. */
  method ConstraintSummary(similar: Rel, rows: seq<Row>, quotas: map<StratumKey, int>)
    returns (r: Result<Summary, SummaryError>)
    requires Symmetric(similar)
    ensures r.Ok? <==> ValidQuotas(quotas) && !SomeComponentTooLarge(similar, rows)
    ensures r.Err? ==> r.code == if ValidQuotas(quotas) then ComponentTooLarge else InvalidQuotas
    ensures r.Ok? ==> (r.value.feasible <==> Feasible(similar, rows, quotas))
    ensures r.Ok? ==> CountsUpTo(r.value.counts, similar, rows, |rows|, 0) && Counted(r.value, similar, rows)
  {
    if !ValidQuotas(quotas) {
      return Err(InvalidQuotas);
    }
    var adjacency, counts := CompareRows(similar, rows);
    var isolated := StrataCounts(rows, Isolated(adjacency));
    var limits := Limits(quotas);
    var solved := SolveGraph(similar, rows, adjacency, limits);
    if solved.Err? {
      return Err(solved.code);
    }
    var Combination(possible, sizes) := solved.value;
    var feasible := SomeCovers(possible, isolated, limits);
    FeasibleByVectors(similar, rows, adjacency, quotas, possible);
    NumbersCount(similar, rows, adjacency, sizes, counts, feasible);
    r := Ok(SummaryOf(rows, adjacency, sizes, counts, feasible));
  }

  // ---- the diversity check

  /** No two different rows are in conflict. */
  ghost predicate Diverse(similar: Rel, rows: seq<Row>) {
    forall i, j | 0 <= i < |rows| && 0 <= j < |rows| && i != j :: !Conflict(similar, rows[i], rows[j])
  }

  datatype DiversityError =
    | SolverRefused(error: SummaryError)
    | PacketNativeGroupConflict
    | PacketDirectSimilarityConflict

  lemma DiverseHasSmallComponents(similar: Rel, rows: seq<Row>)
    requires Diverse(similar, rows)
    ensures !SomeComponentTooLarge(similar, rows)
  {
    forall g, component, node | GraphOf(similar, rows, g) && IsComponentOf(g, component, node)
      ensures |component| <= BOUND
    {
      assert Closed(g, {node});
      SubsetSize(component, {node});
    }
  }

  lemma NoPairs(rel: Rel, rows: seq<Row>)
    ensures |Pairs(rel, rows)| == 0 <==> forall i, j | 0 <= i < j < |rows| :: !rel(rows[i], rows[j])
  {
    if |Pairs(rel, rows)| == 0 {
      forall i: nat, j: nat | i < j < |rows| ensures !rel(rows[i], rows[j]) {
        assert (i, j) !in Pairs(rel, rows);
        assert Earlier(i, j, |rows|, 0);
        assert !RelatedPair(rel, rows, i, j);
      }
    } else {
      var p :| p in Pairs(rel, rows);
      assert RelatedPair(rel, rows, p.0, p.1);
    }
  }

  method ValidateDiversity(similar: Rel, rows: seq<Row>) returns (r: Result<bool, DiversityError>)
    requires Symmetric(similar)
    ensures r == Ok(true) <==> Diverse(similar, rows)
    ensures r.Ok? ==> r.value
  {
    var none: map<StratumKey, int> := map key | key in STRATA :: 0;
    assert ValidQuotas(none) by {
      assert none.Keys == (set key | key in STRATA);
    }
    var summary := ConstraintSummary(similar, rows, none);
    if Diverse(similar, rows) {
      DiverseHasSmallComponents(similar, rows);
    }
    if summary.Err? {
      return Err(SolverRefused(summary.code));
    }
    NoPairs(NativeRel(), rows);
    NoPairs(similar, rows);
    if summary.value.counts.native != 0 {
      return Err(PacketNativeGroupConflict);
    }
    if summary.value.counts.similarity != 0 {
      return Err(PacketDirectSimilarityConflict);
    }
    return Ok(true);
  }
}
