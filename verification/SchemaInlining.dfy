/**
 Inlining of "#/$defs/" references, the compiler pass behind the MCP tool schemas. Two versions
 exist: one carries the set of names being expanded and rejects a repeated name, the other has
 no such guard and does not return on a cyclic schema.
 */
module SchemaInlining {
  import opened Options

  datatype Atom = Null | Bool(b: bool) | Num(n: int) | Str(s: string)

  /** A JSON value. The fields of an array are its elements in order. */
  datatype Node = Leaf(atom: Atom) | Branch(isArray: bool, fields: seq<Field>)
  datatype Field = Field(key: string, value: Node)

  /** `requestSchema.$defs`, as looked up by name. */
  type Definitions = map<string, Node>

  /** A pass either returns a value, throws, or (the unguarded pass only) has not returned
      within the references it was allowed to follow. */
  datatype Outcome<T> = Done(value: T) | Fault | Unfinished

  const PREFIX: string := "#/$defs/"

  predicate IsReference(s: string) {
    PREFIX <= s
  }

  function FieldOf(fields: seq<Field>, key: string): Option<Node> {
    if fields == [] then None
    else if fields[0].key == key then Some(fields[0].value)
    else FieldOf(fields[1..], key)
  }

  /** The definition a node refers to, if it is a reference; its other fields do not matter. */
  function RefName(n: Node): Option<string> {
    if n.Leaf? || n.isArray then None
    else match FieldOf(n.fields, "$ref")
      case Some(Leaf(Str(s))) => if IsReference(s) then Some(s[|PREFIX|..]) else None
      case _ => None
  }

  predicate Falsy(n: Node) {
    n in {Leaf(Null), Leaf(Bool(false)), Leaf(Num(0)), Leaf(Str(""))}
  }

  predicate Defined(defs: Definitions, name: string) {
    name in defs && !Falsy(defs[name])
  }

  lemma {:induction false} FieldAt(fields: seq<Field>, key: string, value: Node)
    ensures FieldOf(fields, key) == Some(value) <==>
              exists i :: 0 <= i < |fields| && fields[i] == Field(key, value) &&
                          forall j :: 0 <= j < i ==> fields[j].key != key
  {
    if fields != [] {
      FieldAt(fields[1..], key, value);
      if fields[0].key != key {
        if i :| 0 <= i < |fields[1..]| && fields[1..][i] == Field(key, value) &&
                forall j :: 0 <= j < i ==> fields[1..][j].key != key {
          assert fields[i + 1] == Field(key, value);
          assert forall j :: 0 <= j < i + 1 ==> fields[j].key != key by {
            assert forall j :: 0 < j < i + 1 ==> fields[j] == fields[1..][j - 1];
          }
        }
        if i :| 0 <= i < |fields| && fields[i] == Field(key, value) && forall j :: 0 <= j < i ==> fields[j].key != key {
          assert fields[1..][i - 1] == Field(key, value);
          assert forall j :: 0 <= j < i - 1 ==> fields[1..][j] == fields[j + 1];
        }
      } else {
        assert fields[0] == Field(key, fields[0].value);
      }
    }
  }

  /** A node refers to a definition exactly when it is an object whose first `$ref` is the string
      "#/$defs/" and the name. */
  lemma ReferenceExactly(n: Node, name: string)
    ensures RefName(n) == Some(name) <==>
              n.Branch? && !n.isArray &&
              exists i :: 0 <= i < |n.fields| && n.fields[i] == Field("$ref", Leaf(Str("#/$defs/" + name))) &&
                          forall j :: 0 <= j < i ==> n.fields[j].key != "$ref"
  {
    if n.Branch? {
      FieldAt(n.fields, "$ref", Leaf(Str("#/$defs/" + name)));
      hide FieldOf;
      if RefName(n) == Some(name) {
        var s := FieldOf(n.fields, "$ref").value.atom.s;
        assert s == "#/$defs/" + s[8..];
      } else if FieldOf(n.fields, "$ref") == Some(Leaf(Str("#/$defs/" + name))) {
        assert ("#/$defs/" + name)[8..] == name;
      }
    }
  }

  /** A name is defined unless its definition is missing, null, false, zero or empty. */
  lemma DefinedExactly(defs: Definitions, name: string)
    ensures Defined(defs, name) <==>
              name in defs && defs[name] != Leaf(Null) && defs[name] != Leaf(Bool(false)) &&
              defs[name] != Leaf(Num(0)) && defs[name] != Leaf(Str(""))
  {
  }

  // ---------------------------------------------------------------------------------------
  // The two passes

  /** The guarded pass; `seen` is the set of names being expanded. */
  function Materialize(defs: Definitions, n: Node, seen: set<string>): (r: Outcome<Node>)
    ensures !r.Unfinished?
    decreases defs.Keys - seen, n, 1
  {
    if n.Leaf? then Done(n)
    else if RefName(n).Some? then
      var name := RefName(n).value;
      if name in seen || !Defined(defs, name) then Fault
      else
        assert name in defs.Keys - seen && name !in defs.Keys - (seen + {name});
        Materialize(defs, defs[name], seen + {name})
    else match MaterializeFields(defs, n.fields, seen)
      case Done(fields) => Done(Branch(n.isArray, fields))
      case Fault => Fault
  }

  function MaterializeFields(defs: Definitions, fields: seq<Field>, seen: set<string>): (r: Outcome<seq<Field>>)
    ensures !r.Unfinished?
    decreases defs.Keys - seen, fields, 0
  {
    if fields == [] then Done([])
    else match Materialize(defs, fields[0].value, seen)
      case Fault => Fault
      case Done(v) =>
        match MaterializeFields(defs, fields[1..], seen)
        case Fault => Fault
        case Done(rest) => Done([Field(fields[0].key, v)] + rest)
  }

  /** The unguarded pass, cut off after following `fuel` references in a row. */
  function Unguarded(defs: Definitions, n: Node, fuel: nat): Outcome<Node>
    decreases fuel, n, 1
  {
    if n.Leaf? then Done(n)
    else if RefName(n).Some? then
      var name := RefName(n).value;
      if !Defined(defs, name) then Fault
      else if fuel == 0 then Unfinished
      else Unguarded(defs, defs[name], fuel - 1)
    else match UnguardedFields(defs, n.fields, fuel)
      case Done(fields) => Done(Branch(n.isArray, fields))
      case Fault => Fault
      case Unfinished => Unfinished
  }

  function UnguardedFields(defs: Definitions, fields: seq<Field>, fuel: nat): Outcome<seq<Field>>
    decreases fuel, fields, 0
  {
    if fields == [] then Done([])
    else match Unguarded(defs, fields[0].value, fuel)
      case Fault => Fault
      case Unfinished => Unfinished
      case Done(v) =>
        match UnguardedFields(defs, fields[1..], fuel)
        case Fault => Fault
        case Unfinished => Unfinished
        case Done(rest) => Done([Field(fields[0].key, v)] + rest)
  }

  // ---------------------------------------------------------------------------------------
  // The guard changes no result

  lemma {:induction false} MoreFuel(defs: Definitions, n: Node, fuel: nat, more: nat)
    requires fuel <= more && !Unguarded(defs, n, fuel).Unfinished?
    ensures Unguarded(defs, n, more) == Unguarded(defs, n, fuel)
    decreases fuel, n, 1
  {
    if n.Branch? {
      if RefName(n).Some? {
        var name := RefName(n).value;
        if Defined(defs, name) { MoreFuel(defs, defs[name], fuel - 1, more - 1); }
      } else {
        MoreFuelFields(defs, n.fields, fuel, more);
      }
    }
  }

  lemma {:induction false} MoreFuelFields(defs: Definitions, fields: seq<Field>, fuel: nat, more: nat)
    requires fuel <= more && !UnguardedFields(defs, fields, fuel).Unfinished?
    ensures UnguardedFields(defs, fields, more) == UnguardedFields(defs, fields, fuel)
    decreases fuel, fields, 0
  {
    if fields != [] {
      MoreFuel(defs, fields[0].value, fuel, more);
      if Unguarded(defs, fields[0].value, fuel).Done? {
        MoreFuelFields(defs, fields[1..], fuel, more);
      }
    }
  }

  /** Every name being expanded needs at least `fuel` references in a row to finish. */
  ghost predicate Outstanding(defs: Definitions, seen: set<string>, fuel: nat) {
    forall s :: s in seen ==> s in defs && (fuel > 0 ==> Unguarded(defs, defs[s], fuel - 1).Unfinished?)
  }

  /** The least fuel with which a definition finishes. */
  lemma {:induction false} LeastFuel(defs: Definitions, n: Node, fuel: nat) returns (least: nat)
    requires !Unguarded(defs, n, fuel).Unfinished?
    ensures least <= fuel && Unguarded(defs, n, least) == Unguarded(defs, n, fuel)
    ensures least > 0 ==> Unguarded(defs, n, least - 1).Unfinished?
    decreases fuel
  {
    if fuel == 0 || Unguarded(defs, n, fuel - 1).Unfinished? {
      least := fuel;
    } else {
      MoreFuel(defs, n, fuel - 1, fuel);
      least := LeastFuel(defs, n, fuel - 1);
    }
  }

  lemma {:induction false} GuardSilent(defs: Definitions, n: Node, seen: set<string>, fuel: nat)
    requires !Unguarded(defs, n, fuel).Unfinished? && Outstanding(defs, seen, fuel)
    ensures Materialize(defs, n, seen) == Unguarded(defs, n, fuel)
    decreases fuel, n, 1
  {
    if n.Branch? {
      if RefName(n).Some? {
        var name := RefName(n).value;
        if Defined(defs, name) {
          var least := LeastFuel(defs, defs[name], fuel - 1);
          forall s | s in seen + {name}
            ensures s in defs && (least > 0 ==> Unguarded(defs, defs[s], least - 1).Unfinished?)
          {
            if s in seen && least > 0 && !Unguarded(defs, defs[s], least - 1).Unfinished? {
              MoreFuel(defs, defs[s], least - 1, fuel - 1);
            }
          }
          GuardSilent(defs, defs[name], seen + {name}, least);
        }
      } else {
        GuardSilentFields(defs, n.fields, seen, fuel);
      }
    }
  }

  lemma {:induction false} GuardSilentFields(defs: Definitions, fields: seq<Field>, seen: set<string>, fuel: nat)
    requires !UnguardedFields(defs, fields, fuel).Unfinished? && Outstanding(defs, seen, fuel)
    ensures MaterializeFields(defs, fields, seen) == UnguardedFields(defs, fields, fuel)
    decreases fuel, fields, 0
  {
    if fields != [] {
      GuardSilent(defs, fields[0].value, seen, fuel);
      if Unguarded(defs, fields[0].value, fuel).Done? {
        GuardSilentFields(defs, fields[1..], seen, fuel);
      }
    }
  }

  lemma Narrow(defs: Definitions, seen: set<string>, name: string)
    requires name in defs && name !in seen
    ensures |defs.Keys - (seen + {name})| == |defs.Keys - seen| - 1
    ensures defs.Keys - (seen + {name}) < defs.Keys - seen
  {
    assert name in defs.Keys - seen;
    assert defs.Keys - (seen + {name}) == (defs.Keys - seen) - {name};
  }

  lemma RefUnfolds(defs: Definitions, n: Node, seen: set<string>, name: string)
    requires RefName(n) == Some(name) && Materialize(defs, n, seen).Done?
    ensures Defined(defs, name) && name !in seen
    ensures Materialize(defs, n, seen) == Materialize(defs, defs[name], seen + {name})
    ensures forall fuel: nat :: fuel > 0 ==> Unguarded(defs, n, fuel) == Unguarded(defs, defs[name], fuel - 1)
  {
  }

  lemma {:induction false} EnoughFuel(defs: Definitions, n: Node, seen: set<string>, fuel: nat)
    requires Materialize(defs, n, seen).Done? && fuel >= |defs.Keys - seen|
    ensures Unguarded(defs, n, fuel) == Materialize(defs, n, seen)
    decreases fuel, n, 1
  {
    match RefName(n)
    case Some(name) =>
      RefUnfolds(defs, n, seen, name);
      Narrow(defs, seen, name);
      EnoughFuel(defs, defs[name], seen + {name}, fuel - 1);
    case None =>
      if n.Branch? { EnoughFuelFields(defs, n.fields, seen, fuel); }
  }

  lemma {:induction false} EnoughFuelFields(defs: Definitions, fields: seq<Field>, seen: set<string>, fuel: nat)
    requires MaterializeFields(defs, fields, seen).Done? && fuel >= |defs.Keys - seen|
    ensures UnguardedFields(defs, fields, fuel) == MaterializeFields(defs, fields, seen)
    decreases fuel, fields, 0
  {
    if fields != [] {
      EnoughFuel(defs, fields[0].value, seen, fuel);
      EnoughFuelFields(defs, fields[1..], seen, fuel);
    }
  }

  /** Wherever the unguarded pass returns or throws, the guarded one does the same; and the
      guarded one returns only what the unguarded one returns, within as many references in a
      row as there are definitions. */
  lemma {:induction false} PassesAgree(defs: Definitions, n: Node)
    ensures forall fuel :: !Unguarded(defs, n, fuel).Unfinished? ==>
              Materialize(defs, n, {}) == Unguarded(defs, n, fuel)
    ensures Materialize(defs, n, {}).Done? ==> Unguarded(defs, n, |defs|) == Materialize(defs, n, {})
  {
    forall fuel | !Unguarded(defs, n, fuel).Unfinished?
      ensures Materialize(defs, n, {}) == Unguarded(defs, n, fuel)
    {
      GuardSilent(defs, n, {}, fuel);
    }
    if Materialize(defs, n, {}).Done? {
      assert defs.Keys - {} == defs.Keys;
      EnoughFuel(defs, n, {}, |defs|);
    }
  }

  // ---------------------------------------------------------------------------------------
  // When the guarded pass succeeds

  /** The names a node refers to directly. */
  function Refs(n: Node): set<string>
    decreases n, 1
  {
    if n.Leaf? then {}
    else if RefName(n).Some? then {RefName(n).value}
    else RefsOf(n.fields)
  }

  function RefsOf(fields: seq<Field>): set<string>
    decreases fields, 0
  {
    if fields == [] then {} else Refs(fields[0].value) + RefsOf(fields[1..])
  }

  /** A chain of references starting in `n`: each name occurs in the definition of the one
      before it. */
  ghost predicate RefPath(defs: Definitions, n: Node, path: seq<string>)
    decreases |path|
  {
    path != [] ==>
      path[0] in Refs(n) && (|path| > 1 ==> Defined(defs, path[0]) && RefPath(defs, defs[path[0]], path[1..]))
  }

  ghost predicate NoRepeat(path: seq<string>) {
    forall i, j :: 0 <= i < j < |path| ==> path[i] != path[j]
  }

  lemma {:induction false} DoneRefs(defs: Definitions, n: Node, seen: set<string>, x: string)
    requires Materialize(defs, n, seen).Done? && x in Refs(n)
    ensures x !in seen && Defined(defs, x) && Materialize(defs, defs[x], seen + {x}).Done?
    decreases n, 1
  {
    if RefName(n).None? { DoneRefsOf(defs, n.fields, seen, x); }
  }

  lemma {:induction false} DoneRefsOf(defs: Definitions, fields: seq<Field>, seen: set<string>, x: string)
    requires MaterializeFields(defs, fields, seen).Done? && x in RefsOf(fields)
    ensures x !in seen && Defined(defs, x) && Materialize(defs, defs[x], seen + {x}).Done?
    decreases fields, 0
  {
    if x in Refs(fields[0].value) {
      DoneRefs(defs, fields[0].value, seen, x);
    } else {
      DoneRefsOf(defs, fields[1..], seen, x);
    }
  }

  lemma {:induction false} FaultRef(defs: Definitions, n: Node, seen: set<string>) returns (x: string)
    requires Materialize(defs, n, seen).Fault?
    ensures x in Refs(n)
    ensures x in seen || !Defined(defs, x) || Materialize(defs, defs[x], seen + {x}).Fault?
    decreases n, 1
  {
    if RefName(n).Some? {
      x := RefName(n).value;
    } else {
      x := FaultRefOf(defs, n.fields, seen);
    }
  }

  lemma {:induction false} FaultRefOf(defs: Definitions, fields: seq<Field>, seen: set<string>) returns (x: string)
    requires MaterializeFields(defs, fields, seen).Fault?
    ensures x in RefsOf(fields)
    ensures x in seen || !Defined(defs, x) || Materialize(defs, defs[x], seen + {x}).Fault?
    decreases fields, 0
  {
    if Materialize(defs, fields[0].value, seen).Fault? {
      x := FaultRef(defs, fields[0].value, seen);
    } else {
      x := FaultRefOf(defs, fields[1..], seen);
    }
  }

  lemma {:induction false} DonePath(defs: Definitions, n: Node, seen: set<string>, path: seq<string>)
    requires Materialize(defs, n, seen).Done? && RefPath(defs, n, path)
    ensures NoRepeat(path) && forall i :: 0 <= i < |path| ==> path[i] !in seen && Defined(defs, path[i])
    decreases |path|
  {
    if path != [] {
      DoneRefs(defs, n, seen, path[0]);
      if |path| > 1 {
        DonePath(defs, defs[path[0]], seen + {path[0]}, path[1..]);
        forall i | 1 <= i < |path| ensures path[i] !in seen + {path[0]} && Defined(defs, path[i]) {
          assert path[1..][i - 1] == path[i];
        }
        forall i, j | 1 <= i < j < |path| ensures path[i] != path[j] {
          assert path[1..][i - 1] != path[1..][j - 1];
        }
      }
    }
  }

  /** A failed pass exhibits a chain ending in an undefined name or in one it has already
      expanded. */
  lemma {:induction false} FaultPath(defs: Definitions, n: Node, seen: set<string>) returns (path: seq<string>)
    requires Materialize(defs, n, seen).Fault?
    ensures path != [] && RefPath(defs, n, path)
    ensures var end := |path| - 1;
            !Defined(defs, path[end]) || path[end] in seen || path[end] in path[..end]
    decreases defs.Keys - seen
  {
    var x := FaultRef(defs, n, seen);
    if x in seen || !Defined(defs, x) {
      path := [x];
    } else {
      assert x in defs.Keys - seen;
      var rest := FaultPath(defs, defs[x], seen + {x});
      path := [x] + rest;
      assert path[1..] == rest;
      var end := |path| - 1;
      assert path[end] == rest[|rest| - 1];
      assert path[..end] == [x] + rest[..|rest| - 1];
    }
  }

  /** The guarded pass succeeds exactly when every chain of references stays within the defined
      names and never comes back to one of them. */
  lemma {:induction false} SucceedsExactly(defs: Definitions, n: Node)
    ensures Materialize(defs, n, {}).Done? <==>
              forall path :: RefPath(defs, n, path) ==>
                NoRepeat(path) && forall i :: 0 <= i < |path| ==> Defined(defs, path[i])
  {
    if Materialize(defs, n, {}).Done? {
      forall path | RefPath(defs, n, path)
        ensures NoRepeat(path) && forall i :: 0 <= i < |path| ==> Defined(defs, path[i])
      {
        DonePath(defs, n, {}, path);
      }
    } else {
      var path := FaultPath(defs, n, {});
      var end := |path| - 1;
      if Defined(defs, path[end]) {
        var i :| 0 <= i < end && path[..end][i] == path[end];
        assert path[i] == path[end];
      }
    }
  }

  // ---------------------------------------------------------------------------------------
  // Meaning: what a reader sees when walking down a schema and resolving references on the way

  datatype Shape = Value(atom: Atom) | Container(isArray: bool, keys: seq<string>)

  function ShapeOf(n: Node): Shape {
    match n
    case Leaf(a) => Value(a)
    case Branch(isArray, fields) => Container(isArray, seq(|fields|, i requires 0 <= i < |fields| => fields[i].key))
  }

  /** Follow a chain of references to the first node that is not one. */
  function Resolve(defs: Definitions, n: Node, fuel: nat): Option<Node>
    decreases fuel
  {
    if RefName(n).None? then Some(n)
    else if fuel == 0 || !Defined(defs, RefName(n).value) then None
    else Resolve(defs, defs[RefName(n).value], fuel - 1)
  }

  /** What stands at a position of the original, references resolved lazily along the way. */
  function Observe(defs: Definitions, n: Node, position: seq<nat>): Option<Shape>
    decreases |position|
  {
    match Resolve(defs, n, |defs|)
    case None => None
    case Some(m) =>
      if position == [] then Some(ShapeOf(m))
      else if m.Leaf? || position[0] >= |m.fields| then None
      else Observe(defs, m.fields[position[0]].value, position[1..])
  }

  /** What stands at a position of a value read as it is. */
  function Read(n: Node, position: seq<nat>): Option<Shape>
    decreases |position|
  {
    if position == [] then Some(ShapeOf(n))
    else if n.Leaf? || position[0] >= |n.fields| then None
    else Read(n.fields[position[0]].value, position[1..])
  }

  lemma {:induction false} ResolveDone(defs: Definitions, n: Node, seen: set<string>, fuel: nat)
      returns (m: Node, more: set<string>)
    requires Materialize(defs, n, seen).Done? && fuel >= |defs.Keys - seen|
    ensures Resolve(defs, n, fuel) == Some(m) && RefName(m).None?
    ensures Materialize(defs, m, more) == Materialize(defs, n, seen)
    decreases fuel
  {
    match RefName(n)
    case None =>
      m, more := n, seen;
    case Some(name) =>
      RefUnfolds(defs, n, seen, name);
      Narrow(defs, seen, name);
      m, more := ResolveDone(defs, defs[name], seen + {name}, fuel - 1);
  }

  lemma {:induction false} FieldsDone(defs: Definitions, fields: seq<Field>, seen: set<string>)
    requires MaterializeFields(defs, fields, seen).Done?
    ensures var r := MaterializeFields(defs, fields, seen).value;
            |r| == |fields| &&
            forall i :: 0 <= i < |r| ==>
              r[i].key == fields[i].key && Materialize(defs, fields[i].value, seen) == Done(r[i].value)
  {
    if fields != [] { FieldsDone(defs, fields[1..], seen); }
  }

  lemma KeysCardinality(defs: Definitions, seen: set<string>)
    ensures |defs.Keys - seen| <= |defs|
  {
    SubsetSize(defs.Keys - seen, defs.Keys);
  }

  lemma {:induction false} SubsetSize(a: set<string>, b: set<string>)
    requires a <= b
    ensures |a| <= |b|
  {
    if x :| x in a {
      SubsetSize(a - {x}, b - {x});
    }
  }

  /** Inlining preserves meaning: at every position, the result read as it is shows what the
      original shows when references are resolved on the way down. */
  lemma {:induction false} MeaningPreserved(defs: Definitions, n: Node, seen: set<string>, position: seq<nat>)
    requires Materialize(defs, n, seen).Done?
    ensures Read(Materialize(defs, n, seen).value, position) == Observe(defs, n, position)
    decreases |position|
  {
    KeysCardinality(defs, seen);
    var m, more := ResolveDone(defs, n, seen, |defs|);
    if m.Branch? {
      FieldsDone(defs, m.fields, more);
      assert ShapeOf(Materialize(defs, n, seen).value) == ShapeOf(m);
      if position != [] && position[0] < |m.fields| {
        MeaningPreserved(defs, m.fields[position[0]].value, more, position[1..]);
      }
    }
  }

  // ---------------------------------------------------------------------------------------
  // What is left afterwards

  /** No definition is itself a string that reads as a reference. */
  ghost predicate NoReferenceStrings(defs: Definitions) {
    forall name :: name in defs ==> !(defs[name].Leaf? && defs[name].atom.Str? && IsReference(defs[name].atom.s))
  }

  lemma {:induction false} LeafResult(defs: Definitions, n: Node, seen: set<string>)
    requires Materialize(defs, n, seen).Done? && Materialize(defs, n, seen).value.Leaf?
    ensures n == Materialize(defs, n, seen).value || Materialize(defs, n, seen).value in defs.Values
    decreases defs.Keys - seen
  {
    if n.Branch? && RefName(n).Some? {
      var name := RefName(n).value;
      assert name in defs.Keys - seen;
      LeafResult(defs, defs[name], seen + {name});
    }
  }

  lemma {:induction false} FieldOfDone(defs: Definitions, fields: seq<Field>, seen: set<string>, key: string)
    requires MaterializeFields(defs, fields, seen).Done?
    ensures var r := FieldOf(MaterializeFields(defs, fields, seen).value, key);
            match FieldOf(fields, key)
            case None => r == None
            case Some(v) => r.Some? && Materialize(defs, v, seen) == Done(r.value)
  {
    if fields != [] && fields[0].key != key { FieldOfDone(defs, fields[1..], seen, key); }
  }

  lemma {:induction false} NoRefsLeft(defs: Definitions, n: Node, seen: set<string>)
    requires NoReferenceStrings(defs) && Materialize(defs, n, seen).Done?
    ensures Refs(Materialize(defs, n, seen).value) == {}
    decreases defs.Keys - seen, n, 1
  {
    if n.Branch? {
      if RefName(n).Some? {
        var name := RefName(n).value;
        assert name in defs.Keys - seen;
        NoRefsLeft(defs, defs[name], seen + {name});
      } else {
        var t := Materialize(defs, n, seen).value;
        FieldOfDone(defs, n.fields, seen, "$ref");
        if RefName(t).Some? {
          var v := FieldOf(n.fields, "$ref").value;
          LeafResult(defs, v, seen);
          assert false;
        }
        NoRefsLeftFields(defs, n.fields, seen);
      }
    }
  }

  lemma {:induction false} NoRefsLeftFields(defs: Definitions, fields: seq<Field>, seen: set<string>)
    requires NoReferenceStrings(defs) && MaterializeFields(defs, fields, seen).Done?
    ensures RefsOf(MaterializeFields(defs, fields, seen).value) == {}
    decreases defs.Keys - seen, fields, 0
  {
    if fields != [] {
      NoRefsLeft(defs, fields[0].value, seen);
      NoRefsLeftFields(defs, fields[1..], seen);
    }
  }

  lemma {:induction false} InlineNothing(defs: Definitions, t: Node, seen: set<string>)
    requires Refs(t) == {}
    ensures Materialize(defs, t, seen) == Done(t)
    decreases t, 1
  {
    if t.Branch? { InlineNothingFields(defs, t.fields, seen); }
  }

  lemma {:induction false} InlineNothingFields(defs: Definitions, fields: seq<Field>, seen: set<string>)
    requires RefsOf(fields) == {}
    ensures MaterializeFields(defs, fields, seen) == Done(fields)
    decreases fields, 0
  {
    if fields != [] {
      assert fields == [Field(fields[0].key, fields[0].value)] + fields[1..];
      InlineNothing(defs, fields[0].value, seen);
      InlineNothingFields(defs, fields[1..], seen);
    }
  }

  /** A node that leaves a reference behind when definition `name` is a reference string. */
  function Quoting(name: string): Node {
    Branch(false, [Field("$ref", Branch(false, [Field("$ref", Leaf(Str(PREFIX + name)))]))])
  }

  lemma QuotingLeaves(defs: Definitions, name: string)
    requires name in defs && defs[name].Leaf? && defs[name].atom.Str? && IsReference(defs[name].atom.s)
    ensures Materialize(defs, Quoting(name), {}) == Done(Branch(false, [Field("$ref", defs[name])]))
    ensures Refs(Branch(false, [Field("$ref", defs[name])])) != {}
  {
    var inner := Quoting(name).fields[0].value;
    assert (PREFIX + name)[|PREFIX|..] == name;
    assert RefName(inner) == Some(name);
    assert RefName(Quoting(name)) == None;
    assert Materialize(defs, inner, {}) == Done(defs[name]);
    assert MaterializeFields(defs, Quoting(name).fields[1..], {}) == Done([]);
    assert [Field("$ref", defs[name])] + [] == [Field("$ref", defs[name])];
    assert MaterializeFields(defs, Quoting(name).fields, {}) == Done([Field("$ref", defs[name])]);
    assert RefName(Branch(false, [Field("$ref", defs[name])])).Some?;
  }

  /** The same node with one more field, and what inlining makes of it. */
  function Tagged(name: string, tag: int): Node {
    Branch(false, Quoting(name).fields + [Field("tag", Leaf(Num(tag)))])
  }

  function TaggedResult(defs: Definitions, name: string, tag: int): Node
    requires name in defs
  {
    Branch(false, [Field("$ref", defs[name]), Field("tag", Leaf(Num(tag)))])
  }

  lemma TaggedLeaves(defs: Definitions, name: string, tag: int)
    requires name in defs && defs[name].Leaf? && defs[name].atom.Str? && IsReference(defs[name].atom.s)
    ensures Materialize(defs, Tagged(name, tag), {}) == Done(TaggedResult(defs, name, tag))
    ensures RefName(TaggedResult(defs, name, tag)) == Some(defs[name].atom.s[|PREFIX|..])
  {
    QuotingLeaves(defs, name);
    var n := Tagged(name, tag);
    var inner := n.fields[0].value;
    assert (PREFIX + name)[|PREFIX|..] == name;
    assert RefName(inner) == Some(name) && RefName(n) == None;
    assert Materialize(defs, inner, {}) == Done(defs[name]);
    var rest := n.fields[1..];
    var last := Field("tag", Leaf(Num(tag)));
    assert rest == [last] && rest[1..] == [] && rest[0] == last;
    assert Materialize(defs, last.value, {}) == Done(last.value) && MaterializeFields(defs, rest[1..], {}) == Done([]);
    assert MaterializeFields(defs, rest, {}) == Done([Field(last.key, last.value)] + []);
    assert [last] + [] == rest;
    assert MaterializeFields(defs, n.fields, {}) == Done([Field("$ref", defs[name])] + rest);
    assert [Field("$ref", defs[name])] + rest == TaggedResult(defs, name, tag).fields;
  }

  /** A second pass sees only the reference, so it cannot leave both results as they are. */
  lemma TaggedChanges(defs: Definitions, name: string)
    requires name in defs && defs[name].Leaf? && defs[name].atom.Str? && IsReference(defs[name].atom.s)
    ensures exists tag :: Materialize(defs, Tagged(name, tag), {}).Done? &&
              Materialize(defs, Materialize(defs, Tagged(name, tag), {}).value, {}) != Materialize(defs,
                          Tagged(name, tag), {})
  {
    TaggedLeaves(defs, name, 0);
    TaggedLeaves(defs, name, 1);
    var a, b := TaggedResult(defs, name, 0), TaggedResult(defs, name, 1);
    assert a.fields[1] != b.fields[1];
    assert Materialize(defs, a, {}) == Materialize(defs, b, {});
    assert Materialize(defs, a, {}) != Done(a) || Materialize(defs, b, {}) != Done(b);
  }

  predicate LeavesNone(defs: Definitions, n: Node) {
    Materialize(defs, n, {}).Done? ==> Refs(Materialize(defs, n, {}).value) == {}
  }

  predicate SettlesAtOnce(defs: Definitions, n: Node) {
    Materialize(defs, n, {}).Done? ==> Materialize(defs, Materialize(defs, n, {}).value, {}) == Materialize(defs, n, {})
  }

  /** Inlining leaves no reference in any schema exactly when no definition is itself a string
      that reads as a reference; and exactly then inlining again changes nothing. */
  lemma {:induction false} NoReferenceLeftExactly(defs: Definitions)
    ensures NoReferenceStrings(defs) <==> forall n :: LeavesNone(defs, n)
    ensures NoReferenceStrings(defs) <==> forall n :: SettlesAtOnce(defs, n)
  {
    if NoReferenceStrings(defs) {
      forall n ensures LeavesNone(defs, n) && SettlesAtOnce(defs, n) {
        if Materialize(defs, n, {}).Done? {
          NoRefsLeft(defs, n, {});
          InlineNothing(defs, Materialize(defs, n, {}).value, {});
        }
      }
    } else {
      var name :| name in defs && defs[name].Leaf? && defs[name].atom.Str? && IsReference(defs[name].atom.s);
      QuotingLeaves(defs, name);
      assert !LeavesNone(defs, Quoting(name));
      TaggedChanges(defs, name);
      var tag :| Materialize(defs, Tagged(name, tag), {}).Done? &&
        Materialize(defs, Materialize(defs, Tagged(name, tag), {}).value, {}) != Materialize(defs, Tagged(name, tag),
                    {});
      assert !SettlesAtOnce(defs, Tagged(name, tag));
    }
  }

  /** A concrete schema on which inlining leaves a reference that a second pass rejects. */
  lemma ReferenceLeftExample()
    ensures var defs := map["x" := Leaf(Str("#/$defs/y"))];
            && Materialize(defs, Quoting("x"), {}).Done?
            && Refs(Materialize(defs, Quoting("x"), {}).value) == {"y"}
            && Materialize(defs, Materialize(defs, Quoting("x"), {}).value, {}).Fault?
  {
    var defs := map["x" := Leaf(Str("#/$defs/y"))];
    QuotingLeaves(defs, "x");
    var t := Branch(false, [Field("$ref", defs["x"])]);
    assert defs["x"].atom.s[|PREFIX|..] == "y";
    assert RefName(t) == Some("y");
  }
}
