/** The copying methods: they thread one mapping and mint values as they go. */
module Cloner {
  import opened Clone

  class Context {
    var values: map<nat, nat>
    var next: nat

    constructor (bindings: map<nat, nat>, first: nat)
      ensures values == bindings && next == first
    {
      values, next := bindings, first;
    }

    ghost function Now(): Mapping
      reads this
    {
      Mapping(values, next)
    }

    /** Copies an unordered region: its ports, then its ops in order, then the names of its results. */
    method CloneNodesRegionInto(r: Region) returns (copy: Region)
      modifies this
      ensures copy == CloneRegion(r, old(Now())).tree && Now() == CloneRegion(r, old(Now())).mapping
      decreases r, 0
    {
      ghost var before := Now();
      var ports := ClonePorts(r.ports);
      ghost var start := Now();
      var ops := [];
      for i := 0 to |r.ops|
        invariant CloneOps(r.ops, start).tree == ops + CloneOps(r.ops[i..], Now()).tree
        invariant CloneOps(r.ops, start).mapping == CloneOps(r.ops[i..], Now()).mapping
      {
        assert r.ops[i..][1..] == r.ops[i + 1..];
        var op := CloneOpInto(r.ops[i]);
        ops := ops + [op];
      }
      return Region(ports, ops, RemapAll(values, r.results));
    }

    /** Mints a copy of each port; a bound port keeps its binding. */
    method ClonePorts(ports: seq<nat>) returns (copies: seq<nat>)
      modifies this
      ensures copies == Minted(old(next), |ports|)
      ensures Now() == Mapping(MapPorts(old(values), ports, old(next)), old(next) + |ports|)
    {
      copies := [];
      for i := 0 to |ports|
        invariant next == old(next) + i && copies == Minted(old(next), i)
        invariant MapPorts(old(values), ports, old(next)) == MapPorts(values, ports[i..], next)
      {
        assert ports[i..][1..] == ports[i + 1..];
        if ports[i] !in values {
          values := values[ports[i] := next];
        }
        copies := copies + [next];
        next := next + 1;
      }
    }

    method CloneResults(results: seq<nat>) returns (copies: seq<nat>)
      modifies this
      ensures copies == Minted(old(next), |results|)
      ensures Now() == Mapping(MapResults(old(values), results, old(next)), old(next) + |results|)
    {
      copies := [];
      for i := 0 to |results|
        invariant next == old(next) + i && copies == Minted(old(next), i)
        invariant MapResults(old(values), results, old(next)) == MapResults(values, results[i..], next)
      {
        assert results[i..][1..] == results[i + 1..];
        values := values[results[i] := next];
        copies := copies + [next];
        next := next + 1;
      }
    }

    /** Copies an op: its regions first, then its operands renamed, then its results minted. */
    method CloneOpInto(op: Op) returns (copy: Op)
      modifies this
      ensures copy == CloneOp(op, old(Now())).tree && Now() == CloneOp(op, old(Now())).mapping
      decreases op, 0
    {
      ghost var before := Now();
      var regions := [];
      for i := 0 to |op.regions|
        invariant CloneRegions(op.regions, before).tree == regions + CloneRegions(op.regions[i..], Now()).tree
        invariant CloneRegions(op.regions, before).mapping == CloneRegions(op.regions[i..], Now()).mapping
      {
        assert op.regions[i..][1..] == op.regions[i + 1..];
        var region := CloneNodesRegionInto(op.regions[i]);
        regions := regions + [region];
      }
      var operands := RemapAll(values, op.operands);
      var results := CloneResults(op.results);
      return Op(op.name, operands, results, regions);
    }
  }
}
