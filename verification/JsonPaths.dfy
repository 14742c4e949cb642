/** What makes a value representable, told place by place. */
module JsonPaths {
  import opened Results
  import opened JsonTree
  import Money

  /** The value at a place: each number picks an item of a list or the value of an entry. */
  function At(v: Value, path: seq<nat>): Option<Value>
    decreases |path|
  {
    if path == [] then Some(v)
    else match v
      case List(items) => if path[0] < |items| then At(items[path[0]], path[1..]) else None
      case Dict(entries) => if path[0] < |entries| then At(entries[path[0]].child, path[1..]) else None
      case _ => None
  }

  // ---- the leaves

  /** A code point that is half of a surrogate pair: its upper bits are those of the first or of the second half. */
  predicate IsHalf(code: nat) {
    code / 1024 == 54 || code / 1024 == 55
  }

  lemma SurrogatesAreHalves(text: Text)
    ensures HasSurrogate(text) <==> exists i: nat :: i < |text| && IsHalf(text[i])
  {
    forall i: nat | i < |text| ensures IsHalf(text[i]) <==> 0xD800 <= text[i] <= 0xDFFF {}
    if i: nat :| i < |text| && 0xD800 <= text[i] <= 0xDFFF {
      assert IsHalf(text[i]);
    }
  }

  lemma {:induction false} PowersAgree(n: nat)
    ensures Power(n) == Money.Pow(n)
  {
    if n > 0 {
      PowersAgree(n - 1);
    }
  }

  /** An integer is bounded when it is written with so many digits at most. */
  lemma BoundedCountsDigits(number: int, digits: nat)
    requires digits > 0
    ensures Bounded(number, digits) <==> Money.Digits(Money.Abs(number)) <= digits
  {
    var n := Money.Abs(number);
    PowersAgree(digits);
    if n < Money.Pow(digits) {
      Money.DigitsAtMost(n, digits);
    }
    if Money.Digits(n) <= digits {
      Money.DigitsBound(n);
      Money.PowGrows(Money.Digits(n), digits);
    }
  }

  ghost predicate GoodText(text: Text) {
    forall i: nat | i < |text| :: !IsHalf(text[i])
  }

  /** What a value must be in itself, without the values in it. */
  ghost predicate GoodNode(v: Value, digits: nat) {
    match v
    case Null => true
    case Flag(_) => true
    case Whole(number) => Money.Digits(Money.Abs(number)) <= digits
    case Float(finite) => finite
    case Str(text) => GoodText(text)
    case List(_) => true
    case Dict(entries) => forall i: nat | i < |entries| :: entries[i].key.TextKey? && GoodText(entries[i].key.text)
    case Foreign => false
  }

  /** What is at the place is good, and the place is no deeper than 64. */
  ghost predicate GoodAt(v: Value, path: seq<nat>, depth: nat, digits: nat) {
    At(v, path).Some? ==> depth + |path| <= 64 && GoodNode(At(v, path).value, digits)
  }

  ghost predicate GoodEverywhere(v: Value, depth: nat, digits: nat) {
    forall path: seq<nat> :: GoodAt(v, path, depth, digits)
  }

  /** The child at one place of a list or a dictionary. */
  function Child(v: Value, i: nat): Option<Value> {
    match v
    case List(items) => if i < |items| then Some(items[i]) else None
    case Dict(entries) => if i < |entries| then Some(entries[i].child) else None
    case _ => None
  }

  lemma AtChild(v: Value, i: nat, path: seq<nat>)
    ensures At(v, [i] + path) == if Child(v, i).Some? then At(Child(v, i).value, path) else None
  {
    assert ([i] + path)[1..] == path;
  }

  lemma ChildIsGood(v: Value, i: nat, child: Value, depth: nat, next: nat, digits: nat)
    requires GoodEverywhere(v, depth, digits) && Child(v, i) == Some(child) && next == depth + 1
    ensures GoodEverywhere(child, next, digits)
  {
    forall path: seq<nat> ensures GoodAt(child, path, next, digits) {
      AtChild(v, i, path);
      assert GoodAt(v, [i] + path, depth, digits);
    }
  }

  lemma GoodChildren(v: Value, depth: nat, digits: nat)
    ensures GoodEverywhere(v, depth, digits) <==>
      && depth <= 64 && GoodNode(v, digits)
      && forall i: nat | Child(v, i).Some? :: GoodEverywhere(Child(v, i).value, depth + 1, digits)
  {
    if GoodEverywhere(v, depth, digits) {
      assert GoodAt(v, [], depth, digits);
      forall i: nat | Child(v, i).Some? ensures GoodEverywhere(Child(v, i).value, depth + 1, digits) {
        ChildIsGood(v, i, Child(v, i).value, depth, depth + 1, digits);
      }
    }
    if && depth <= 64 && GoodNode(v, digits)
       && forall i: nat | Child(v, i).Some? :: GoodEverywhere(Child(v, i).value, depth + 1, digits) {
      forall path: seq<nat> ensures GoodAt(v, path, depth, digits) {
        if path != [] {
          AtChild(v, path[0], path[1..]);
          assert path == [path[0]] + path[1..];
          if Child(v, path[0]).Some? {
            assert GoodAt(Child(v, path[0]).value, path[1..], depth + 1, digits);
          }
        }
      }
    }
  }

  lemma NodeIsGood(v: Value, depth: nat, digits: nat)
    requires digits > 0
    ensures WellFormed(v, depth, digits) <==>
      && depth <= 64 && GoodNode(v, digits)
      && forall i: nat | Child(v, i).Some? :: WellFormed(Child(v, i).value, depth + 1, digits)
  {
    match v
    case Whole(number) => BoundedCountsDigits(number, digits);
    case Str(text) => SurrogatesAreHalves(text);
    case List(items) =>
      assert forall i: nat | i < |items| :: Child(v, i) == Some(items[i]);
    case Dict(entries) =>
      forall i: nat | i < |entries|
        ensures GoodKey(entries[i].key) <==> entries[i].key.TextKey? && GoodText(entries[i].key.text)
        ensures Child(v, i) == Some(entries[i].child)
      {
        if entries[i].key.TextKey? {
          SurrogatesAreHalves(entries[i].key.text);
        }
      }
      EntriesSplit(entries, depth + 1, digits);
    case _ =>
  }

  lemma EntriesSplit(entries: seq<Entry>, depth: nat, digits: nat)
    ensures EntriesWellFormed(entries, depth, digits) <==>
      && (forall i: nat | i < |entries| :: GoodKey(entries[i].key))
      && (forall i: nat | i < |entries| :: WellFormed(entries[i].child, depth, digits))
  {
    forall i: nat | i < |entries|
      ensures EntryWellFormed(entries[i], depth, digits) <==>
        GoodKey(entries[i].key) && WellFormed(entries[i].child, depth, digits)
    {}
  }

  lemma ChildIsSmaller(v: Value, i: nat)
    requires Child(v, i).Some?
    ensures Child(v, i).value < v
  {}

  /** The recursive meaning is the same as: nothing at any place is deeper than 64, and everything is good in itself. */
  lemma {:induction false} WellFormedEverywhere(v: Value, depth: nat, digits: nat)
    requires digits > 0
    ensures WellFormed(v, depth, digits) <==> GoodEverywhere(v, depth, digits)
    decreases v
  {
    NodeIsGood(v, depth, digits);
    GoodChildren(v, depth, digits);
    forall i: nat | Child(v, i).Some?
      ensures WellFormed(Child(v, i).value, depth + 1, digits) <==> GoodEverywhere(Child(v, i).value, depth + 1, digits)
    {
      ChildIsSmaller(v, i);
      WellFormedEverywhere(Child(v, i).value, depth + 1, digits);
    }
  }

  // ---- how many places there are

  function Children(v: Value): seq<Value> {
    match v
    case List(items) => items
    case Dict(entries) => seq(|entries|, i requires 0 <= i < |entries| => entries[i].child)
    case _ => []
  }

  ghost predicate Has(v: Value, path: seq<nat>) {
    At(v, path).Some?
  }

  /** A list of all places in a value, without repetition. */
  ghost predicate Lists(v: Value, places: seq<seq<nat>>) {
    && (forall path: seq<nat> :: path in places <==> Has(v, path))
    && (forall a: nat, b: nat | a < b < |places| :: places[a] != places[b])
  }

  /** The places below the first n children. */
  ghost predicate ListsBelow(v: Value, n: nat, places: seq<seq<nat>>) {
    && (forall path: seq<nat> :: path in places <==> path != [] && path[0] < n && Has(v, path))
    && (forall a: nat, b: nat | a < b < |places| :: places[a] != places[b])
  }

  function Below(i: nat, places: seq<seq<nat>>): seq<seq<nat>> {
    seq(|places|, a requires 0 <= a < |places| => [i] + places[a])
  }

  lemma BelowMembers(i: nat, places: seq<seq<nat>>, path: seq<nat>)
    ensures path in Below(i, places) <==> path != [] && path[0] == i && path[1..] in places
  {
    if path in Below(i, places) {
      var a: nat :| a < |places| && Below(i, places)[a] == path;
      assert path[1..] == places[a];
    }
    if path != [] && path[0] == i && path[1..] in places {
      var a: nat :| a < |places| && places[a] == path[1..];
      assert Below(i, places)[a] == path;
    }
  }

  function NodesUpTo(children: seq<Value>, n: nat): nat
    requires n <= |children|
  {
    if n == 0 then 0 else NodesUpTo(children, n - 1) + Nodes(children[n - 1])
  }

  lemma {:induction false} NodesOfItems(items: seq<Value>, n: nat)
    requires n <= |items|
    ensures NodesOf(items[..n]) == NodesUpTo(items, n)
  {
    if n > 0 {
      assert items[..n][..n - 1] == items[..n - 1];
      NodesOfItems(items, n - 1);
    }
  }

  lemma {:induction false} NodesOfChildren(v: Value, entries: seq<Entry>, n: nat)
    requires v == Dict(entries) && n <= |entries|
    ensures NodesOfEntries(entries[..n]) == NodesUpTo(Children(v), n)
  {
    if n > 0 {
      assert entries[..n][..n - 1] == entries[..n - 1];
      NodesOfChildren(v, entries, n - 1);
    }
  }

  lemma NodesAreChildren(v: Value)
    ensures Nodes(v) == 1 + NodesUpTo(Children(v), |Children(v)|)
  {
    match v
    case List(items) =>
      assert items[..|items|] == items;
      NodesOfItems(items, |items|);
    case Dict(entries) =>
      assert entries[..|entries|] == entries;
      NodesOfChildren(v, entries, |entries|);
    case _ =>
  }

  lemma HasBelow(v: Value, path: seq<nat>)
    requires path != []
    ensures Has(v, path) <==> path[0] < |Children(v)| && Has(Children(v)[path[0]], path[1..])
  {}

  lemma JoinBelow(v: Value, n: nat, before: seq<seq<nat>>, inside: seq<seq<nat>>)
    requires n < |Children(v)| && ListsBelow(v, n, before) && Lists(Children(v)[n], inside)
    ensures ListsBelow(v, n + 1, before + Below(n, inside))
  {
    var all := before + Below(n, inside);
    forall path: seq<nat> ensures path in all <==> path != [] && path[0] < n + 1 && Has(v, path) {
      BelowMembers(n, inside, path);
      if path != [] {
        HasBelow(v, path);
      }
    }
    forall a: nat, b: nat | a < b < |all| ensures all[a] != all[b] {
      if b >= |before| {
        BelowMembers(n, inside, all[b]);
        assert all[b] == [n] + inside[b - |before|];
        if a >= |before| {
          assert all[a] == [n] + inside[a - |before|];
          assert all[a][1..] == inside[a - |before|] && all[b][1..] == inside[b - |before|];
        } else {
          assert all[a] in before;
        }
      }
    }
  }

  lemma ChildSmaller(v: Value, i: nat)
    requires i < |Children(v)|
    ensures Children(v)[i] < v
  {
    ChildIsSmaller(v, i);
  }

  lemma {:induction false} PlacesBelow(v: Value, n: nat) returns (places: seq<seq<nat>>)
    requires n <= |Children(v)|
    ensures ListsBelow(v, n, places) && |places| == NodesUpTo(Children(v), n)
    decreases v, n
  {
    if n == 0 {
      places := [];
    } else {
      var before := PlacesBelow(v, n - 1);
      ChildSmaller(v, n - 1);
      var inside := PlacesOf(Children(v)[n - 1]);
      JoinBelow(v, n - 1, before, inside);
      places := before + Below(n - 1, inside);
    }
  }

  /** The count of values is the number of places: they can be listed without repetition in a list of that length. */
  lemma {:induction false} PlacesOf(v: Value) returns (places: seq<seq<nat>>)
    ensures Lists(v, places) && |places| == Nodes(v)
    decreases v, |Children(v)| + 1
  {
    var below := PlacesBelow(v, |Children(v)|);
    NodesAreChildren(v);
    places := [[]] + below;
    forall path: seq<nat> ensures path in places <==> Has(v, path) {
      if path != [] {
        HasBelow(v, path);
      }
    }
    forall a: nat, b: nat | a < b < |places| ensures places[a] != places[b] {
      assert places[b] == below[b - 1] && below[b - 1] in below;
      assert a > 0 ==> places[a] == below[a - 1];
    }
  }

  /** A value is representable exactly when it is good at every place, no place is deeper than 64, and there are at most
      100000 places. */
  lemma RepresentableExactly(v: Value, digits: nat) returns (places: seq<seq<nat>>)
    requires digits > 0
    ensures Lists(v, places)
    ensures Representable(v, digits) <==> GoodEverywhere(v, 1, digits) && |places| <= 100000
  {
    places := PlacesOf(v);
    WellFormedEverywhere(v, 1, digits);
  }
}
