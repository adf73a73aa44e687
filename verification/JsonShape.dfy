/**
 The structural check on request bodies: one recursive traversal with a shared node counter
 that stops at the first violation.
 */
module JsonShape {

  const MAX_NODES: nat := 256
  const MAX_DEPTH: nat := 8
  const MAX_STRING: nat := 2048
  const MAX_ENTRIES: nat := 64

  /** A parsed JSON value. The entries of an array are its elements, under their positions. */
  datatype Json =
    | Scalar // null, a boolean or a number
    | Text(s: string)
    | Container(isArray: bool, entries: seq<Entry>)

  datatype Entry = Entry(key: string, value: Json)

  predicate Prohibited(key: string) {
    key in {"__proto__", "constructor", "prototype"}
  }

  // ---------------------------------------------------------------------------------------
  // What the limits mean, each by itself

  function Max(a: nat, b: nat): nat { if a < b then b else a }

  /** Values in a document, the document itself included. */
  function Nodes(v: Json): nat
    decreases v, 1
  {
    if v.Container? then 1 + NodesIn(v.entries) else 1
  }

  function NodesIn(entries: seq<Entry>): nat
    decreases entries, 0
  {
    if entries == [] then 0 else Nodes(entries[0].value) + NodesIn(entries[1..])
  }

  /** Depth of the deepest value, the document being at depth 0. */
  function Height(v: Json): nat
    decreases v, 1
  {
    if v.Container? then HeightIn(v.entries) else 0
  }

  function HeightIn(entries: seq<Entry>): nat
    decreases entries, 0
  {
    if entries == [] then 0 else Max(1 + Height(entries[0].value), HeightIn(entries[1..]))
  }

  /** At every level: no long string, no crowded container, no prohibited key of an object. */
  predicate Clean(v: Json)
    decreases v, 1
  {
    match v
    case Scalar => true
    case Text(s) => |s| <= 2048
    case Container(isArray, entries) => |entries| <= 64 && CleanIn(isArray, entries)
  }

  predicate CleanIn(isArray: bool, entries: seq<Entry>)
    decreases entries, 0
  {
    entries == [] ||
    ((isArray || entries[0].key !in {"__proto__", "constructor", "prototype"}) && Clean(entries[0].value) &&
     CleanIn(isArray, entries[1..]))
  }

  // ---------------------------------------------------------------------------------------
  // The traversal

  class ShapeValidator {
    var nodes: nat

    constructor ()
      ensures nodes == 0
    {
      nodes := 0;
    }

    method Visit(v: Json, depth: nat) returns (ok: bool)
      requires nodes <= 256
      modifies this
      ensures ok <==> old(nodes) + Nodes(v) <= 256 && depth + Height(v) <= 8 && Clean(v)
      ensures ok ==> nodes == old(nodes) + Nodes(v)
      decreases v
    {
      nodes := nodes + 1;
      if nodes > MAX_NODES || depth > MAX_DEPTH { return false; }
      if v.Text? && |v.s| > MAX_STRING { return false; }
      if !v.Container? { return true; }
      if |v.entries| > MAX_ENTRIES { return false; }
      ghost var tallest: nat := 0;
      ghost var start := nodes;
      var i := 0;
      while i < |v.entries|
        invariant i <= |v.entries|
        invariant nodes <= MAX_NODES && nodes + NodesIn(v.entries[i..]) == start + NodesIn(v.entries)
        invariant depth + tallest <= MAX_DEPTH && Max(tallest, HeightIn(v.entries[i..])) == HeightIn(v.entries)
        invariant CleanIn(v.isArray, v.entries) <==> CleanIn(v.isArray, v.entries[i..])
      {
        var e := v.entries[i];
        assert v.entries[i..][0] == e && v.entries[i..][1..] == v.entries[i + 1..];
        if !v.isArray && Prohibited(e.key) { return false; }
        var fine := Visit(e.value, depth + 1);
        if !fine { return false; }
        tallest := Max(tallest, 1 + Height(e.value));
        i := i + 1;
      }
      return true;
    }
  }

  /** The whole check accepts exactly the objects within all limits. */
  method ValidateJsonShape(value: Json) returns (ok: bool)
    ensures ok <==>
              && value.Container? && !value.isArray
              && Nodes(value) <= 256 && Height(value) <= 8 && Clean(value)
  {
    var visitor := new ShapeValidator();
    ok := visitor.Visit(value, 0);
    ok := ok && value.Container? && !value.isArray;
  }
}
