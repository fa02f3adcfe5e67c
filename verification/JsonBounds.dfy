/** The size check on free-form JSON, run before any recursive walk (packages/protocol/src/common.ts). */
module JsonBounds {

  const MAX_JSON_DEPTH: nat := 32
  const MAX_JSON_NODES: nat := 10_000

  /** Only the shape matters: strings, numbers, booleans and null are leaves, keys are not looked at. */
  datatype Json = Leaf | Array(items: seq<Json>) | Object(values: seq<Json>)

  function Children(v: Json): seq<Json> {
    match v
    case Leaf => []
    case Array(items) => items
    case Object(values) => values
  }

  // ---- the recursive definitions the check stands for ----

  function Nodes(v: Json): nat
    decreases v, 1
  {
    1 + match v
        case Leaf => 0
        case Array(items) => NodesOfAll(items)
        case Object(values) => NodesOfAll(values)
  }

  function NodesOfAll(vs: seq<Json>): nat
    decreases vs, 0
  {
    if vs == [] then 0 else NodesOfAll(vs[..|vs| - 1]) + Nodes(vs[|vs| - 1])
  }

  function Depth(v: Json): nat
    decreases v, 1
  {
    1 + match v
        case Leaf => 0
        case Array(items) => MaxDepth(items)
        case Object(values) => MaxDepth(values)
  }

  function MaxDepth(vs: seq<Json>): nat
    decreases vs, 0
  {
    if vs == [] then 0
    else
      var before, last := MaxDepth(vs[..|vs| - 1]), Depth(vs[|vs| - 1]);
      if before >= last then before else last
  }

  // ---- the same measures over the explicit stack ----

  datatype Frame = Frame(value: Json, depth: nat)

  function NodesOn(stack: seq<Frame>): nat {
    if stack == [] then 0 else NodesOn(stack[..|stack| - 1]) + Nodes(stack[|stack| - 1].value)
  }

  /** No value waiting on the stack reaches below the allowed depth. */
  predicate Shallow(stack: seq<Frame>) {
    stack == []
    || (Shallow(stack[..|stack| - 1])
        && stack[|stack| - 1].depth + Depth(stack[|stack| - 1].value) <= MAX_JSON_DEPTH + 1)
  }

  /** Pushes the items one by one, as the loops over array elements and object values do. */
  method PushAll(stack: seq<Frame>, items: seq<Json>, depth: nat) returns (after: seq<Frame>)
    ensures NodesOn(after) == NodesOn(stack) + NodesOfAll(items)
    ensures Shallow(after) <==> Shallow(stack) && (items == [] || depth + MaxDepth(items) <= MAX_JSON_DEPTH + 1)
  {
    after := stack;
    var i := 0;
    while i < |items|
      invariant i <= |items|
      invariant NodesOn(after) == NodesOn(stack) + NodesOfAll(items[..i])
      invariant Shallow(after) <==> Shallow(stack) && (i == 0 || depth + MaxDepth(items[..i]) <= MAX_JSON_DEPTH + 1)
    {
      ghost var before := after;
      after := after + [Frame(items[i], depth)];
      assert after[..|after| - 1] == before;
      assert items[..i + 1][..i] == items[..i];
      i := i + 1;
    }
    assert items[..|items|] == items;
  }

  /** True exactly when nodes and depth are both within bounds; never takes more than 10 001 values off the stack. */
  method IsBoundedJson(value: Json) returns (bounded: bool, ghost pops: nat)
    ensures bounded <==> Nodes(value) <= MAX_JSON_NODES && Depth(value) <= MAX_JSON_DEPTH
    ensures pops <= MAX_JSON_NODES + 1
  {
    var nodes := 0;
    var stack := [Frame(value, 1)];
    pops := 0;
    assert stack[..0] == [];
    while stack != []
      invariant nodes <= MAX_JSON_NODES && pops == nodes
      invariant nodes + NodesOn(stack) == Nodes(value)
      invariant Shallow(stack) <==> Depth(value) <= MAX_JSON_DEPTH
      decreases NodesOn(stack)
    {
      var current, depth := stack[|stack| - 1].value, stack[|stack| - 1].depth;
      var rest := stack[..|stack| - 1];
      assert Depth(current) == 1 + MaxDepth(Children(current)) && Nodes(current) == 1 + NodesOfAll(Children(current));
      nodes, pops := nodes + 1, pops + 1;
      if nodes > MAX_JSON_NODES || depth > MAX_JSON_DEPTH {
        return false, pops;
      }
      if current.Leaf? {
        stack := rest;
      } else {
        stack := PushAll(rest, Children(current), depth + 1);
      }
    }
    bounded := true;
  }
}
