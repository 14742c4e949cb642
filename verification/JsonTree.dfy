/** The iterative check that a response is bounded JSON-native data. */
module JsonTree {

  const MAX_NODES := 100000
  const MAX_DEPTH := 64

  /** Text as code points, so that it can hold unpaired surrogates. */
  type Text = seq<nat>

  datatype Key = TextKey(text: Text) | OtherKey

  /** A Python value as the check sees it; `Foreign` is anything that is not JSON-native. */
  datatype Value =
    | Null
    | Flag(bit: bool)
    | Whole(number: int)
    | Float(finite: bool)
    | Str(text: Text)
    | List(items: seq<Value>)
    | Dict(entries: seq<Entry>)
    | Foreign

  datatype Entry = Entry(key: Key, child: Value)

  predicate HasSurrogate(text: Text) {
    exists i: nat :: i < |text| && 0xD800 <= text[i] <= 0xDFFF
  }

  predicate GoodKey(key: Key) {
    key.TextKey? && !HasSurrogate(key.text)
  }

  /** Ten to the power of the 64 digits an integer may have. */
  function Power(n: nat): nat {
    if n == 0 then 1 else 10 * Power(n - 1)
  }

  predicate Bounded(number: int, digits: nat) {
    number < Power(digits) && -number < Power(digits)
  }

  // ---- the recursive meaning

  /** The value and everything in it is well-formed, and nothing in it is deeper than the limit. */
  predicate WellFormed(v: Value, depth: nat, digits: nat)
    decreases v, 1
  {
    depth <= 64 &&
    match v
    case Null => true
    case Flag(_) => true
    case Whole(number) => Bounded(number, digits)
    case Float(finite) => finite
    case Str(text) => !HasSurrogate(text)
    case List(items) => AllWellFormed(items, depth + 1, digits)
    case Dict(entries) => EntriesWellFormed(entries, depth + 1, digits)
    case Foreign => false
  }

  predicate AllWellFormed(items: seq<Value>, depth: nat, digits: nat)
    decreases items, 0
  {
    forall i: nat | i < |items| :: WellFormed(items[i], depth, digits)
  }

  predicate EntriesWellFormed(entries: seq<Entry>, depth: nat, digits: nat)
    decreases entries, 0
  {
    forall i: nat | i < |entries| :: EntryWellFormed(entries[i], depth, digits)
  }

  predicate EntryWellFormed(entry: Entry, depth: nat, digits: nat)
    decreases entry, 0
  {
    GoodKey(entry.key) && WellFormed(entry.child, depth, digits)
  }

  /** How many values there are in a value, itself included. */
  function Nodes(v: Value): (n: nat)
    ensures n >= 1
    decreases v, 1
  {
    match v
    case List(items) => 1 + NodesOf(items)
    case Dict(entries) => 1 + NodesOfEntries(entries)
    case _ => 1
  }

  function NodesOf(items: seq<Value>): nat
    decreases items, 0, |items|
  {
    if items == [] then 0 else NodesOf(items[..|items| - 1]) + Nodes(items[|items| - 1])
  }

  function NodesOfEntries(entries: seq<Entry>): nat
    decreases entries, 0, |entries|
  {
    if entries == [] then 0 else NodesOfEntries(entries[..|entries| - 1]) + NodesOfEntry(entries[|entries| - 1])
  }

  function NodesOfEntry(entry: Entry): (n: nat)
    ensures n >= 1
    decreases entry, 0
  {
    Nodes(entry.child)
  }

  predicate Representable(v: Value, digits: nat) {
    WellFormed(v, 1, digits) && Nodes(v) <= 100000
  }

  // ---- the stack

  datatype Frame = Frame(value: Value, depth: nat)

  function StackNodes(stack: seq<Frame>): nat {
    if stack == [] then 0 else StackNodes(stack[..|stack| - 1]) + Nodes(stack[|stack| - 1].value)
  }

  predicate StackWellFormed(stack: seq<Frame>, digits: nat) {
    forall i: nat | i < |stack| :: WellFormed(stack[i].value, stack[i].depth, digits)
  }

  function Frames(items: seq<Value>, depth: nat): (r: seq<Frame>)
    ensures |r| == |items| && forall i: nat | i < |r| :: r[i] == Frame(items[i], depth)
  {
    seq(|items|, i requires 0 <= i < |items| => Frame(items[i], depth))
  }

  lemma {:induction false} FramesAdd(stack: seq<Frame>, items: seq<Value>, depth: nat)
    ensures StackNodes(stack + Frames(items, depth)) == StackNodes(stack) + NodesOf(items)
  {
    if items == [] {
      assert stack + Frames(items, depth) == stack;
    } else {
      var rest := items[..|items| - 1];
      var all := stack + Frames(items, depth);
      FramesAdd(stack, rest, depth);
      assert all[..|all| - 1] == stack + Frames(rest, depth);
    }
  }

  lemma FramesWellFormed(stack: seq<Frame>, items: seq<Value>, depth: nat, digits: nat)
    ensures StackWellFormed(stack + Frames(items, depth), digits) <==>
            StackWellFormed(stack, digits) && AllWellFormed(items, depth, digits)
  {
    var all := stack + Frames(items, depth);
    if StackWellFormed(all, digits) {
      forall i: nat | i < |stack| ensures WellFormed(stack[i].value, stack[i].depth, digits) {
        assert all[i] == stack[i];
      }
      forall i: nat | i < |items| ensures WellFormed(items[i], depth, digits) {
        assert all[|stack| + i] == Frame(items[i], depth);
      }
    }
  }

  lemma PushOne(stack: seq<Frame>, frame: Frame, digits: nat)
    ensures StackNodes(stack + [frame]) == StackNodes(stack) + Nodes(frame.value)
    ensures StackWellFormed(stack + [frame], digits) <==>
            StackWellFormed(stack, digits) && WellFormed(frame.value, frame.depth, digits)
  {
    var all := stack + [frame];
    assert all[..|all| - 1] == stack;
    if StackWellFormed(all, digits) {
      forall i: nat | i < |stack| ensures WellFormed(stack[i].value, stack[i].depth, digits) {
        assert all[i] == stack[i];
      }
      assert all[|stack|] == frame;
    }
  }

  /** The loop over the entries of a dictionary: a bad key ends the check. */
  method PushEntries(stack: seq<Frame>, entries: seq<Entry>, depth: nat, digits: nat)
    returns (ok: bool, pushed: seq<Frame>)
    ensures ok ==> StackNodes(pushed) == StackNodes(stack) + NodesOfEntries(entries)
    ensures ok ==>
      (StackWellFormed(pushed, digits) <==> StackWellFormed(stack, digits) && EntriesWellFormed(entries, depth, digits))
    ensures !ok ==> !EntriesWellFormed(entries, depth, digits)
  {
    pushed := stack;
    assert entries[..0] == [];
    for k := 0 to |entries|
      invariant StackNodes(pushed) == StackNodes(stack) + NodesOfEntries(entries[..k])
      invariant StackWellFormed(pushed, digits) <==>
                StackWellFormed(stack, digits) && forall i: nat | i < k :: EntryWellFormed(entries[i], depth, digits)
      invariant forall i: nat | i < k :: GoodKey(entries[i].key)
    {
      if !GoodKey(entries[k].key) {
        assert !EntryWellFormed(entries[k], depth, digits);
        return false, pushed;
      }
      assert entries[..k + 1][..k] == entries[..k];
      PushOne(pushed, Frame(entries[k].child, depth), digits);
      pushed := pushed + [Frame(entries[k].child, depth)];
    }
    assert entries[..|entries|] == entries;
    ok := true;
  }

  /** One value off the stack: its children take its place, or it ends the check. */
  method Visit(rest: seq<Frame>, frame: Frame, digits: nat) returns (good: bool, stack: seq<Frame>)
    ensures good ==> StackNodes(stack) + 1 == StackNodes(rest) + Nodes(frame.value)
    ensures good ==>
      (StackWellFormed(stack, digits) <==>
        StackWellFormed(rest, digits) && WellFormed(frame.value, frame.depth, digits))
    ensures !good ==> !WellFormed(frame.value, frame.depth, digits)
  {
    good, stack := true, rest;
    if frame.depth > MAX_DEPTH {
      return false, rest;
    }
    match frame.value {
      case Null =>
      case Flag(_) =>
      case Whole(number) =>
        good := Bounded(number, digits);
      case Float(finite) =>
        good := finite;
      case Str(text) =>
        good := !HasSurrogate(text);
      case List(items) =>
        FramesAdd(rest, items, frame.depth + 1);
        FramesWellFormed(rest, items, frame.depth + 1, digits);
        stack := rest + Frames(items, frame.depth + 1);
      case Dict(entries) =>
        good, stack := PushEntries(rest, entries, frame.depth + 1, digits);
      case Foreign =>
        good := false;
    }
  }

  /** `representable`: the explicit stack ends and decides exactly the recursive meaning. */
  method IsRepresentable(value: Value, digits: nat) returns (ok: bool)
    ensures ok <==> Representable(value, digits)
  {
    var stack, nodes := [Frame(value, 1)], 0;
    PushOne([], Frame(value, 1), digits);
    assert [] + stack == stack;
    while stack != []
      invariant nodes + StackNodes(stack) == Nodes(value)
      invariant nodes <= MAX_NODES
      invariant StackWellFormed(stack, digits) <==> WellFormed(value, 1, digits)
      decreases StackNodes(stack)
    {
      nodes := nodes + 1;
      if nodes > MAX_NODES {
        return false;
      }
      var frame, rest := stack[|stack| - 1], stack[..|stack| - 1];
      assert stack == rest + [frame];
      PushOne(rest, frame, digits);
      ok, stack := Visit(rest, frame, digits);
      if !ok {
        return;
      }
    }
    ok := true;
  }
}
