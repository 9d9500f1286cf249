/** Different definitions of the source get different values in the copy. */
module CloneDistinct {
  import opened Seqs
  import opened Clone
  import opened CloneRegions

  /** No two values mapped between `m` and `n` go to one. */
  ghost predicate Injective(m: map<nat, nat>, n: map<nat, nat>)
  {
    forall v, w | v in n && w in n && v !in m && w !in m && n[v] == n[w] :: v == w
  }

  lemma {:induction false} InjectiveOn(a: Mapping, b: Mapping, c: Mapping, k: Bounds, seen: set<nat>)
    requires Fits(b, k, seen) && Extends(b, c, k) && Injective(a.values, b.values) && Injective(b.values, c.values)
    ensures Injective(a.values, c.values)
  {
  }

  lemma {:induction false} PortsInjective(values: map<nat, nat>, ports: seq<nat>, next: nat)
    requires Distinct(ports)
    ensures Injective(values, MapPorts(values, ports, next))
  {
    MapPortsIs(values, ports, next);
    var n := MapPorts(values, ports, next);
    forall v, w | v in n && w in n && v !in values && w !in values && n[v] == n[w]
      ensures v == w
    {
      var i: nat :| i < |ports| && ports[i] == v;
      var j: nat :| j < |ports| && ports[j] == w;
    }
  }

  lemma {:induction false} ResultsInjective(values: map<nat, nat>, results: seq<nat>, next: nat)
    requires Distinct(results)
    ensures Injective(values, MapResults(values, results, next))
  {
    MapResultsIs(values, results, next);
    var n := MapResults(values, results, next);
    forall v, w | v in n && w in n && v !in values && w !in values && n[v] == n[w]
      ensures v == w
    {
      var i: nat :| i < |results| && results[i] == v;
      var j: nat :| j < |results| && results[j] == w;
    }
  }

  lemma {:induction false} PortsStart(m: Mapping, b: Bounds, seen: set<nat>, ports: seq<nat>)
    requires NewDefs(b, seen, ports) && Fits(m, b, seen)
    ensures var n := Mapping(MapPorts(m.values, ports, m.next), m.next + |ports|);
            Fits(n, b, seen + Elements(ports)) && Injective(m.values, n.values)
  {
    PortsFit(m, b, seen, ports);
    PortsInjective(m.values, ports, m.next);
  }

  lemma {:induction false} RegionInjective(r: Region, m: Mapping, b: Bounds, seen: set<nat>, visible: set<nat>)
    requires GoodRegion(r, b, seen, visible) && Fits(m, b, seen)
    ensures Injective(m.values, CloneRegion(r, m).mapping.values)
    decreases r, 0
  {
    var n := Mapping(MapPorts(m.values, r.ports, m.next), m.next + |r.ports|);
    var ports := Elements(r.ports);
    PortsStart(m, b, seen, r.ports);
    OpsInjective(r.ops, n, b, seen + ports, visible + ports, r.results);
    OpsStayInjective(m, r.ops, n, b, seen + ports, visible + ports, r.results);
  }

  lemma {:induction false} OpsStayInjective(a: Mapping, ops: seq<Op>, m: Mapping, b: Bounds, seen: set<nat>, visible: set<nat>, results: seq<nat>)
    requires GoodOps(ops, b, seen, visible, results) && Fits(m, b, seen)
    requires Injective(a.values, m.values) && Injective(m.values, CloneOps(ops, m).mapping.values)
    ensures Injective(a.values, CloneOps(ops, m).mapping.values)
  {
    OpsFit(ops, m, b, seen, visible, results);
    InjectiveOn(a, m, CloneOps(ops, m).mapping, b, seen);
  }

  lemma {:induction false} OpsInjective(ops: seq<Op>, m: Mapping, b: Bounds, seen: set<nat>, visible: set<nat>, results: seq<nat>)
    requires GoodOps(ops, b, seen, visible, results) && Fits(m, b, seen)
    ensures Injective(m.values, CloneOps(ops, m).mapping.values)
    decreases ops, 0
  {
    if ops != [] {
      var op, n := ops[0], CloneOp(ops[0], m).mapping;
      OpFits(op, m, b, seen, visible);
      OpInjective(op, m, b, seen, visible);
      OpsFit(ops[1..], n, b, seen + DefsOfOp(op), visible + Elements(op.results), results);
      OpsInjective(ops[1..], n, b, seen + DefsOfOp(op), visible + Elements(op.results), results);
      InjectiveOn(m, n, CloneOps(ops[1..], n).mapping, b, seen + DefsOfOp(op));
    }
  }

  lemma {:induction false} OpInjective(op: Op, m: Mapping, b: Bounds, seen: set<nat>, visible: set<nat>)
    requires GoodOp(op, b, seen, visible) && Fits(m, b, seen)
    ensures Injective(m.values, CloneOp(op, m).mapping.values)
    decreases op, 0
  {
    var inner := Clone.CloneRegions(op.regions, m).mapping;
    RegionsFit(op.regions, m, b, seen, visible);
    RegionsInjective(op.regions, m, b, seen, visible);
    ResultsFit(inner, b, seen + DefsOfRegions(op.regions), op.results);
    ResultsInjective(inner.values, op.results, inner.next);
    InjectiveOn(m, inner, CloneOp(op, m).mapping, b, seen + DefsOfRegions(op.regions));
  }

  lemma {:induction false} RegionsInjective(rs: seq<Region>, m: Mapping, b: Bounds, seen: set<nat>, visible: set<nat>)
    requires GoodRegions(rs, b, seen, visible) && Fits(m, b, seen)
    ensures Injective(m.values, Clone.CloneRegions(rs, m).mapping.values)
    decreases rs, 0
  {
    if rs != [] {
      var n := CloneRegion(rs[0], m).mapping;
      RegionFits(rs[0], m, b, seen, visible);
      RegionInjective(rs[0], m, b, seen, visible);
      RegionsFit(rs[1..], n, b, seen + DefsOfRegion(rs[0]), visible);
      RegionsInjective(rs[1..], n, b, seen + DefsOfRegion(rs[0]), visible);
      InjectiveOn(m, n, Clone.CloneRegions(rs[1..], n).mapping, b, seen + DefsOfRegion(rs[0]));
    }
  }

  /** In a copy, different definitions that are not bound get different new values. */
  lemma {:induction false} CopyIsInjective(r: Region, bindings: map<nat, nat>, next: nat)
    requires Copyable(r, bindings, next)
    ensures Injective(bindings, CloneRegion(r, Mapping(bindings, next)).mapping.values)
  {
    var b, n, ports := Bounds(DefsOfRegion(r), next), Start(r, bindings, next), Elements(r.ports);
    StartFits(r, bindings, next);
    PortsInjective(bindings, r.ports, next);
    OpsInjective(r.ops, n, b, ports, ports, r.results);
    OpsStayInjective(Mapping(bindings, next), r.ops, n, b, ports, ports, r.results);
  }
}
