/**
  Deep copies of unordered regions: definitions are minted anew, references
  inside are moved onto the copies and references outside are kept or bound. An
  unordered region's ops are listed in the order the copy visits them, a
  topological one.
 */
module Clone {
  import opened Seqs

  /** An op: what it does, its operands and results, and its regions. */
  datatype Op = Op(name: nat, operands: seq<nat>, results: seq<nat>, regions: seq<Region>)

  datatype Region = Region(ports: seq<nat>, ops: seq<Op>, results: seq<nat>)

  /** The copies of the values met so far, and the next value to mint. */
  datatype Mapping = Mapping(values: map<nat, nat>, next: nat)

  datatype Copy<T> = Copy(tree: T, mapping: Mapping)

  function Remap(values: map<nat, nat>, v: nat): nat { if v in values then values[v] else v }

  function RemapAll(values: map<nat, nat>, vs: seq<nat>): (r: seq<nat>)
    ensures |r| == |vs| && forall i: nat | i < |vs| :: r[i] == Remap(values, vs[i])
  {
    seq(|vs|, i requires 0 <= i < |vs| => Remap(values, vs[i]))
  }

  // ----- Copying.

  function Minted(next: nat, n: nat): (r: seq<nat>)
    ensures |r| == n && forall i: nat | i < n :: r[i] == next + i
  {
    seq(n, i requires 0 <= i < n => next + i)
  }

  /** Ports keep a binding they have. */
  function MapPorts(values: map<nat, nat>, ports: seq<nat>, next: nat): map<nat, nat>
    decreases |ports|
  {
    if ports == [] then values
    else MapPorts(if ports[0] in values then values else values[ports[0] := next], ports[1..], next + 1)
  }

  function MapResults(values: map<nat, nat>, results: seq<nat>, next: nat): map<nat, nat>
    decreases |results|
  {
    if results == [] then values else MapResults(values[results[0] := next], results[1..], next + 1)
  }

  function CloneRegion(r: Region, m: Mapping): Copy<Region>
    decreases r, 0
  {
    var ops := CloneOps(r.ops, Mapping(MapPorts(m.values, r.ports, m.next), m.next + |r.ports|));
    Copy(Region(Minted(m.next, |r.ports|), ops.tree, RemapAll(ops.mapping.values, r.results)), ops.mapping)
  }

  function CloneOps(ops: seq<Op>, m: Mapping): Copy<seq<Op>>
    decreases ops, 0
  {
    if ops == [] then Copy([], m)
    else
      var first := CloneOp(ops[0], m);
      var rest := CloneOps(ops[1..], first.mapping);
      Copy([first.tree] + rest.tree, rest.mapping)
  }

  function CloneOp(op: Op, m: Mapping): Copy<Op>
    decreases op, 0
  {
    var regions := CloneRegions(op.regions, m);
    var inner := regions.mapping;
    Copy(Op(op.name, RemapAll(inner.values, op.operands), Minted(inner.next, |op.results|), regions.tree),
         Mapping(MapResults(inner.values, op.results, inner.next), inner.next + |op.results|))
  }

  function CloneRegions(rs: seq<Region>, m: Mapping): Copy<seq<Region>>
    decreases rs, 0
  {
    if rs == [] then Copy([], m)
    else
      var first := CloneRegion(rs[0], m);
      var rest := CloneRegions(rs[1..], first.mapping);
      Copy([first.tree] + rest.tree, rest.mapping)
  }

  // ----- Well-formed trees.

  ghost function DefsOfRegion(r: Region): set<nat>
    decreases r, 0
  {
    Elements(r.ports) + DefsOfOps(r.ops)
  }

  ghost function DefsOfOps(ops: seq<Op>): set<nat>
    decreases ops, 0
  {
    if ops == [] then {} else DefsOfOp(ops[0]) + DefsOfOps(ops[1..])
  }

  ghost function DefsOfOp(op: Op): set<nat>
    decreases op, 0
  {
    DefsOfRegions(op.regions) + Elements(op.results)
  }

  ghost function DefsOfRegions(rs: seq<Region>): set<nat>
    decreases rs, 0
  {
    if rs == [] then {} else DefsOfRegion(rs[0]) + DefsOfRegions(rs[1..])
  }

  /** The definitions of the tree being copied, and a bound on every value around before the copy. */
  datatype Bounds = Bounds(all: set<nat>, lo: nat)

  /** A reference to something in scope, or to something outside the tree. */
  ghost predicate OkRef(b: Bounds, visible: set<nat>, v: nat) { v in visible || (v !in b.all && v < b.lo) }

  ghost predicate OkRefs(b: Bounds, visible: set<nat>, vs: seq<nat>) { forall v | v in vs :: OkRef(b, visible, v) }

  /** Values defined here: of the tree, once, and not before. */
  ghost predicate NewDefs(b: Bounds, seen: set<nat>, vs: seq<nat>) { Distinct(vs) && forall v | v in vs :: v in b.all && v !in seen }

  /** Every value is defined once, and references name what is in scope or outside. */
  ghost predicate GoodRegion(r: Region, b: Bounds, seen: set<nat>, visible: set<nat>)
    decreases r, 0
  {
    NewDefs(b, seen, r.ports) && GoodOps(r.ops, b, seen + Elements(r.ports), visible + Elements(r.ports), r.results)
  }

  ghost predicate GoodOps(ops: seq<Op>, b: Bounds, seen: set<nat>, visible: set<nat>, results: seq<nat>)
    decreases ops, 0
  {
    if ops == [] then OkRefs(b, visible, results)
    else
      && GoodOp(ops[0], b, seen, visible)
      && GoodOps(ops[1..], b, seen + DefsOfOp(ops[0]), visible + Elements(ops[0].results), results)
  }

  ghost predicate GoodOp(op: Op, b: Bounds, seen: set<nat>, visible: set<nat>)
    decreases op, 0
  {
    && GoodRegions(op.regions, b, seen, visible) && OkRefs(b, visible, op.operands)
    && NewDefs(b, seen + DefsOfRegions(op.regions), op.results)
  }

  ghost predicate GoodRegions(rs: seq<Region>, b: Bounds, seen: set<nat>, visible: set<nat>)
    decreases rs, 0
  {
    rs == [] || (GoodRegion(rs[0], b, seen, visible) && GoodRegions(rs[1..], b, seen + DefsOfRegion(rs[0]), visible))
  }

  // ----- The mapping grows and never changes what it has.

  ghost predicate Fits(m: Mapping, b: Bounds, seen: set<nat>)
  {
    && (forall v | v in b.all :: v < b.lo && (v in m.values <==> v in seen))
    && (forall v | v in m.values :: m.values[v] < m.next && m.values[v] !in b.all)
    && b.lo <= m.next
  }

  ghost predicate Extends(m: Mapping, n: Mapping, b: Bounds)
  {
    && m.next <= n.next && (forall v | v in m.values :: v in n.values && n.values[v] == m.values[v])
    && (forall v | v in n.values && v !in m.values :: v in b.all && n.values[v] >= m.next)
  }

  lemma {:induction false} MapResultsIs(values: map<nat, nat>, results: seq<nat>, next: nat)
    requires Distinct(results)
    ensures forall v: nat :: v in MapResults(values, results, next) <==> v in values || v in results
    ensures forall v: nat | v in values && v !in results :: MapResults(values, results, next)[v] == values[v]
    ensures forall i: nat | i < |results| :: MapResults(values, results, next)[results[i]] == next + i
    decreases |results|
  {
    if results != [] {
      var rest := results[1..];
      assert results == [results[0]] + rest;
      var more := values[results[0] := next];
      MapResultsIs(more, rest, next + 1);
      assert MapResults(values, results, next) == MapResults(more, rest, next + 1);
      assert results[0] !in rest;
      forall i: nat | i < |results|
        ensures MapResults(values, results, next)[results[i]] == next + i
      {
        assert i > 0 ==> rest[i - 1] == results[i];
      }
    }
  }

  lemma {:induction false} MapPortsIs(values: map<nat, nat>, ports: seq<nat>, next: nat)
    requires Distinct(ports)
    ensures forall v: nat :: v in MapPorts(values, ports, next) <==> v in values || v in ports
    ensures forall v: nat | v in values :: MapPorts(values, ports, next)[v] == values[v]
    ensures forall i: nat | i < |ports| && ports[i] !in values :: MapPorts(values, ports, next)[ports[i]] == next + i
    decreases |ports|
  {
    if ports != [] {
      var rest := ports[1..];
      assert ports == [ports[0]] + rest;
      assert forall i: nat | i < |rest| :: rest[i] == ports[i + 1];
      MapPortsIs(if ports[0] in values then values else values[ports[0] := next], rest, next + 1);
    }
  }

  lemma {:induction false} PortsFit(m: Mapping, b: Bounds, seen: set<nat>, ports: seq<nat>)
    requires Fits(m, b, seen) && Distinct(ports) && forall v | v in ports :: v in b.all
    ensures var n := Mapping(MapPorts(m.values, ports, m.next), m.next + |ports|);
            Fits(n, b, seen + Elements(ports)) && Extends(m, n, b)
  {
    MapPortsIs(m.values, ports, m.next);
    var n := MapPorts(m.values, ports, m.next);
    forall v | v in n && v !in m.values
      ensures m.next <= n[v] < m.next + |ports|
    {
      var i: nat :| i < |ports| && ports[i] == v;
    }
  }

  lemma {:induction false} ResultsFit(m: Mapping, b: Bounds, seen: set<nat>, results: seq<nat>)
    requires Fits(m, b, seen) && NewDefs(b, seen, results)
    ensures var n := Mapping(MapResults(m.values, results, m.next), m.next + |results|);
            Fits(n, b, seen + Elements(results)) && Extends(m, n, b)
  {
    MapResultsIs(m.values, results, m.next);
    var n := MapResults(m.values, results, m.next);
    forall v | v in n && v !in m.values
      ensures m.next <= n[v] < m.next + |results|
    {
      var i: nat :| i < |results| && results[i] == v;
    }
  }

  lemma {:induction false} RegionFits(r: Region, m: Mapping, b: Bounds, seen: set<nat>, visible: set<nat>)
    requires GoodRegion(r, b, seen, visible) && Fits(m, b, seen)
    ensures Fits(CloneRegion(r, m).mapping, b, seen + DefsOfRegion(r)) && Extends(m, CloneRegion(r, m).mapping, b)
    decreases r, 0
  {
    PortsFit(m, b, seen, r.ports);
    var n := Mapping(MapPorts(m.values, r.ports, m.next), m.next + |r.ports|);
    OpsFit(r.ops, n, b, seen + Elements(r.ports), visible + Elements(r.ports), r.results);
    assert seen + Elements(r.ports) + DefsOfOps(r.ops) == seen + DefsOfRegion(r);
  }

  lemma {:induction false} OpsFit(ops: seq<Op>, m: Mapping, b: Bounds, seen: set<nat>, visible: set<nat>, results: seq<nat>)
    requires GoodOps(ops, b, seen, visible, results) && Fits(m, b, seen)
    ensures Fits(CloneOps(ops, m).mapping, b, seen + DefsOfOps(ops)) && Extends(m, CloneOps(ops, m).mapping, b)
    decreases ops, 0
  {
    if ops == [] {
      assert seen + DefsOfOps(ops) == seen;
    } else {
      var op := ops[0];
      OpFits(op, m, b, seen, visible);
      OpsFit(ops[1..], CloneOp(op, m).mapping, b, seen + DefsOfOp(op), visible + Elements(op.results), results);
      assert seen + DefsOfOp(op) + DefsOfOps(ops[1..]) == seen + DefsOfOps(ops);
    }
  }

  lemma {:induction false} OpFits(op: Op, m: Mapping, b: Bounds, seen: set<nat>, visible: set<nat>)
    requires GoodOp(op, b, seen, visible) && Fits(m, b, seen)
    ensures Fits(CloneOp(op, m).mapping, b, seen + DefsOfOp(op)) && Extends(m, CloneOp(op, m).mapping, b)
    decreases op, 0
  {
    RegionsFit(op.regions, m, b, seen, visible);
    var inner := CloneRegions(op.regions, m).mapping;
    ResultsFit(inner, b, seen + DefsOfRegions(op.regions), op.results);
    assert seen + DefsOfRegions(op.regions) + Elements(op.results) == seen + DefsOfOp(op);
  }

  lemma {:induction false} RegionsFit(rs: seq<Region>, m: Mapping, b: Bounds, seen: set<nat>, visible: set<nat>)
    requires GoodRegions(rs, b, seen, visible) && Fits(m, b, seen)
    ensures Fits(CloneRegions(rs, m).mapping, b, seen + DefsOfRegions(rs)) && Extends(m, CloneRegions(rs, m).mapping, b)
    decreases rs, 0
  {
    if rs == [] {
      assert seen + DefsOfRegions(rs) == seen;
    } else {
      RegionFits(rs[0], m, b, seen, visible);
      RegionsFit(rs[1..], CloneRegion(rs[0], m).mapping, b, seen + DefsOfRegion(rs[0]), visible);
      assert seen + DefsOfRegion(rs[0]) + DefsOfRegions(rs[1..]) == seen + DefsOfRegions(rs);
    }
  }
}
