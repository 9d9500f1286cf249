/** Copying a region under bindings, and what a copy promises. */
module CloneRegions {
  import opened Seqs
  import opened Clone
  import opened CloneTheorems

  /**
    A verified unordered region and bindings for outside values and its own
    ports: everything around is below `next`, and no binding leads inside.
   */
  ghost predicate Copyable(r: Region, bindings: map<nat, nat>, next: nat)
  {
    var all := DefsOfRegion(r);
    && (forall v | v in all :: v < next) && Distinct(r.ports)
    && GoodOps(r.ops, Bounds(all, next), Elements(r.ports), Elements(r.ports), r.results)
    && (forall v | v in bindings :: bindings[v] < next && bindings[v] !in all && (v in all ==> v in r.ports))
  }

  /** The values the ops and regions of a tree name, not those they define. */
  function NamesOfRegion(r: Region): set<nat>
    decreases r, 0
  {
    Elements(r.results) + NamesOfOps(r.ops)
  }

  function NamesOfOps(ops: seq<Op>): set<nat>
    decreases ops, 0
  {
    if ops == [] then {} else NamesOfOp(ops[0]) + NamesOfOps(ops[1..])
  }

  function NamesOfOp(op: Op): set<nat>
    decreases op, 0
  {
    Elements(op.operands) + NamesOfRegions(op.regions)
  }

  function NamesOfRegions(rs: seq<Region>): set<nat>
    decreases rs, 0
  {
    if rs == [] then {} else NamesOfRegion(rs[0]) + NamesOfRegions(rs[1..])
  }

  lemma {:induction false} StartFits(r: Region, bindings: map<nat, nat>, next: nat)
    requires Copyable(r, bindings, next)
    ensures Fits(Start(r, bindings, next), Bounds(DefsOfRegion(r), next), Elements(r.ports))
    ensures Extends(Mapping(bindings, next), Start(r, bindings, next), Bounds(DefsOfRegion(r), next))
    ensures InScope(Start(r, bindings, next), Elements(r.ports))
  {
    var b := Bounds(DefsOfRegion(r), next);
    var m := Mapping(bindings, next);
    var bound := set v | v in bindings && v in b.all;
    assert Fits(m, b, bound);
    PortsFit(m, b, bound, r.ports);
    MapPortsIs(bindings, r.ports, next);
    assert bound + Elements(r.ports) == Elements(r.ports);
  }

  /** Where each value goes: bound ones to their binding, the source's own to new values, others nowhere. */
  ghost predicate RenamesRight(r: Region, bindings: map<nat, nat>, next: nat, values: map<nat, nat>)
  {
    && (forall v | v in bindings :: v in values && values[v] == bindings[v])
    && (forall v | v in DefsOfRegion(r) :: v in values && (v !in bindings ==> values[v] >= next))
    && (forall v | v in values && v !in bindings :: v in DefsOfRegion(r))
  }

  /** The mapping once the ports are copied. */
  function Start(r: Region, bindings: map<nat, nat>, next: nat): Mapping
  {
    Mapping(MapPorts(bindings, r.ports, next), next + |r.ports|)
  }

  /** The copy is the source with every reference renamed, once and for all. */
  lemma {:induction false} CopyIsRenaming(r: Region, bindings: map<nat, nat>, next: nat)
    requires Copyable(r, bindings, next)
    ensures var c := CloneRegion(r, Mapping(bindings, next));
            RenamedRegion(r, c.tree, c.mapping.values) && RenamesRight(r, bindings, next, c.mapping.values)
  {
    var b := Bounds(DefsOfRegion(r), next);
    var n := Start(r, bindings, next);
    StartFits(r, bindings, next);
    TreeRenames(r, n, b, Minted(next, |r.ports|));
    EndsRight(r, bindings, next, n, b);
  }

  lemma {:induction false} TreeRenames(r: Region, n: Mapping, b: Bounds, ports: seq<nat>)
    requires GoodOps(r.ops, b, Elements(r.ports), Elements(r.ports), r.results) && Fits(n, b, Elements(r.ports)) && InScope(n, Elements(r.ports))
    requires |ports| == |r.ports|
    ensures var c := CloneOps(r.ops, n);
            RenamedRegion(r, Region(ports, c.tree, RemapAll(c.mapping.values, r.results)), c.mapping.values)
  {
    OpsRenameAtTop(r, n, b);
  }

  lemma {:induction false} OpsRenameAtTop(r: Region, n: Mapping, b: Bounds)
    requires GoodOps(r.ops, b, Elements(r.ports), Elements(r.ports), r.results) && Fits(n, b, Elements(r.ports)) && InScope(n, Elements(r.ports))
    ensures var c := CloneOps(r.ops, n);
            && |c.tree| == |r.ops| && forall i: nat | i < |r.ops| :: RenamedOp(r.ops[i], c.tree[i], c.mapping.values)
  {
    OpsRename(r.ops, n, b, Elements(r.ports), Elements(r.ports), r.results, CloneOps(r.ops, n).mapping);
  }

  lemma {:induction false} EndsRight(r: Region, bindings: map<nat, nat>, next: nat, n: Mapping, b: Bounds)
    requires GoodOps(r.ops, b, Elements(r.ports), Elements(r.ports), r.results) && Fits(n, b, Elements(r.ports))
    requires Extends(Mapping(bindings, next), n, b) && b.all == DefsOfRegion(r)
    ensures RenamesRight(r, bindings, next, CloneOps(r.ops, n).mapping.values)
    ensures forall v | v in CloneOps(r.ops, n).mapping.values :: CloneOps(r.ops, n).mapping.values[v] !in b.all
  {
    OpsFit(r.ops, n, b, Elements(r.ports), Elements(r.ports), r.results);
    ExtendsOn(Mapping(bindings, next), n, CloneOps(r.ops, n).mapping, b);
    assert Elements(r.ports) + DefsOfOps(r.ops) == b.all;
  }

  /** No operand or region result of the copy names a value the source defines. */
  lemma {:induction false} CopyCapturesNothing(r: Region, bindings: map<nat, nat>, next: nat)
    requires Copyable(r, bindings, next)
    ensures NamesOfRegion(CloneRegion(r, Mapping(bindings, next)).tree) !! DefsOfRegion(r)
  {
    CopyIsRenaming(r, bindings, next);
    var c := CloneRegion(r, Mapping(bindings, next));
    StartFits(r, bindings, next);
    EndsRight(r, bindings, next, Start(r, bindings, next), Bounds(DefsOfRegion(r), next));
    NamesRenamed(r, c.tree, c.mapping.values, DefsOfRegion(r));
  }

  /** Every value a renamed tree names is the renaming of something. */
  ghost predicate Avoids(values: map<nat, nat>, all: set<nat>) { forall v: nat :: Remap(values, v) !in all }

  lemma {:induction false} NamesRenamed(r: Region, c: Region, values: map<nat, nat>, all: set<nat>)
    requires RenamedRegion(r, c, values) && Avoids(values, all)
    ensures NamesOfRegion(c) !! all
    decreases r, 0
  {
    OpNamesRenamed(r.ops, c.ops, values, all);
  }

  lemma {:induction false} OpNamesRenamed(ops: seq<Op>, cs: seq<Op>, values: map<nat, nat>, all: set<nat>)
    requires |cs| == |ops| && (forall i: nat | i < |ops| :: RenamedOp(ops[i], cs[i], values)) && Avoids(values, all)
    ensures NamesOfOps(cs) !! all
    decreases ops, 0
  {
    if ops != [] {
      RegionNamesRenamed(ops[0].regions, cs[0].regions, values, all);
      OpNamesRenamed(ops[1..], cs[1..], values, all);
    }
  }

  lemma {:induction false} RegionNamesRenamed(rs: seq<Region>, cs: seq<Region>, values: map<nat, nat>, all: set<nat>)
    requires |cs| == |rs| && (forall i: nat | i < |rs| :: RenamedRegion(rs[i], cs[i], values)) && Avoids(values, all)
    ensures NamesOfRegions(cs) !! all
    decreases rs, 0
  {
    if rs != [] {
      NamesRenamed(rs[0], cs[0], values, all);
      RegionNamesRenamed(rs[1..], cs[1..], values, all);
    }
  }

  /** What is bound has, in the copy's surroundings, the value the source reads. */
  ghost predicate Surroundings(r: Region, bindings: map<nat, nat>, next: nat, env: Env, copy: Env, args: seq<int>)
  {
    && (forall v: nat | v !in DefsOfRegion(r) && v < next :: Lookup(copy, Remap(bindings, v)) == Lookup(env, v))
    && (forall i: nat | i < |r.ports| && r.ports[i] in bindings ::
          Lookup(copy, bindings[r.ports[i]]) == if i < |args| then args[i] else 0)
  }

  /** The copy evaluates to the source's results, whatever the ops compute. */
  lemma {:induction false} CopyEvaluates(sem: Sem, r: Region, bindings: map<nat, nat>, next: nat, env: Env, copy: Env, args: seq<int>)
    requires Extensional(sem) && Copyable(r, bindings, next) && Surroundings(r, bindings, next, env, copy, args)
    ensures EvalRegion(sem, CloneRegion(r, Mapping(bindings, next)).tree, copy, args) == EvalRegion(sem, r, env, args)
  {
    var b := Bounds(DefsOfRegion(r), next);
    var n := Start(r, bindings, next);
    var ports := Elements(r.ports);
    StartFits(r, bindings, next);
    StartAgrees(r, bindings, next, env, copy, args);
    OpsEvaluate(sem, r.ops, n, b, ports, ports, r.results, Bind(env, r.ports, args), Bind(copy, Minted(next, |r.ports|), args));
  }

  lemma {:induction false} StartAgrees(r: Region, bindings: map<nat, nat>, next: nat, env: Env, copy: Env, args: seq<int>)
    requires Copyable(r, bindings, next) && Surroundings(r, bindings, next, env, copy, args)
    ensures Agree(Bind(env, r.ports, args), Bind(copy, Minted(next, |r.ports|), args),
                  Start(r, bindings, next), Bounds(DefsOfRegion(r), next), Elements(r.ports))
  {
    var copies := Minted(next, |r.ports|);
    var values := MapPorts(bindings, r.ports, next);
    MapPortsIs(bindings, r.ports, next);
    BindIs(env, r.ports, args);
    BindIs(copy, copies, args);
    forall v | OkRef(Bounds(DefsOfRegion(r), next), Elements(r.ports), v)
      ensures Lookup(Bind(copy, copies, args), Remap(values, v)) == Lookup(Bind(env, r.ports, args), v)
    {
      if v in r.ports {
        var i: nat :| i < |r.ports| && r.ports[i] == v;
        assert v !in bindings ==> copies[i] == Remap(values, v);
      } else {
        assert Remap(values, v) == Remap(bindings, v) < next;
      }
    }
  }
}
