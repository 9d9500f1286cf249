/** A copy is the source under one renaming, and evaluates to the same results. */
module CloneTheorems {
  import opened Seqs
  import opened Clone

  // ----- The copy is a renaming.

  ghost predicate RenamedRegion(r: Region, c: Region, values: map<nat, nat>)
    decreases r, 0
  {
    && |c.ports| == |r.ports| && c.results == RemapAll(values, r.results)
    && |c.ops| == |r.ops| && forall i: nat | i < |r.ops| :: RenamedOp(r.ops[i], c.ops[i], values)
  }

  ghost predicate RenamedOp(op: Op, c: Op, values: map<nat, nat>)
    decreases op, 0
  {
    && c.name == op.name && c.operands == RemapAll(values, op.operands) && c.results == RemapAll(values, op.results)
    && |c.regions| == |op.regions| && forall i: nat | i < |op.regions| :: RenamedRegion(op.regions[i], c.regions[i], values)
  }

  /** What is in scope or outside is renamed the same from here on. */
  lemma {:induction false} RemapStays(m: Mapping, n: Mapping, b: Bounds, visible: set<nat>, vs: seq<nat>)
    requires Extends(m, n, b) && OkRefs(b, visible, vs) && forall v | v in visible :: v in m.values
    ensures RemapAll(m.values, vs) == RemapAll(n.values, vs)
  {
    forall i: nat | i < |vs|
      ensures Remap(m.values, vs[i]) == Remap(n.values, vs[i])
    {
      assert vs[i] in vs && OkRef(b, visible, vs[i]);
    }
  }

  lemma {:induction false} ExtendsOn(a: Mapping, b: Mapping, c: Mapping, k: Bounds)
    requires Extends(a, b, k) && Extends(b, c, k)
    ensures Extends(a, c, k)
  {
  }

  ghost predicate InScope(m: Mapping, visible: set<nat>) { forall v | v in visible :: v in m.values }

  lemma {:induction false} RegionRenames(r: Region, m: Mapping, b: Bounds, seen: set<nat>, visible: set<nat>, end: Mapping)
    requires GoodRegion(r, b, seen, visible) && Fits(m, b, seen) && InScope(m, visible)
    requires Extends(CloneRegion(r, m).mapping, end, b)
    ensures RenamedRegion(r, CloneRegion(r, m).tree, end.values)
    decreases r, 0
  {
    PortsFit(m, b, seen, r.ports);
    MapPortsIs(m.values, r.ports, m.next);
    var n := Mapping(MapPorts(m.values, r.ports, m.next), m.next + |r.ports|);
    OpsRename(r.ops, n, b, seen + Elements(r.ports), visible + Elements(r.ports), r.results, end);
  }

  lemma {:induction false} OpsRename(ops: seq<Op>, m: Mapping, b: Bounds, seen: set<nat>, visible: set<nat>, results: seq<nat>, end: Mapping)
    requires GoodOps(ops, b, seen, visible, results) && Fits(m, b, seen) && InScope(m, visible)
    requires Extends(CloneOps(ops, m).mapping, end, b)
    ensures |CloneOps(ops, m).tree| == |ops| && forall i: nat | i < |ops| :: RenamedOp(ops[i], CloneOps(ops, m).tree[i], end.values)
    ensures RemapAll(CloneOps(ops, m).mapping.values, results) == RemapAll(end.values, results)
    decreases ops, 0
  {
    if ops == [] {
      RemapStays(m, end, b, visible, results);
    } else {
      var op, n := ops[0], CloneOp(ops[0], m).mapping;
      OpFits(op, m, b, seen, visible);
      OpsFit(ops[1..], n, b, seen + DefsOfOp(op), visible + Elements(op.results), results);
      ExtendsOn(n, CloneOps(ops[1..], n).mapping, end, b);
      OpRenames(op, m, b, seen, visible, end);
      ResultsInScope(op, m, b, seen, visible);
      OpsRename(ops[1..], n, b, seen + DefsOfOp(op), visible + Elements(op.results), results, end);
    }
  }

  lemma {:induction false} ResultsInScope(op: Op, m: Mapping, b: Bounds, seen: set<nat>, visible: set<nat>)
    requires GoodOp(op, b, seen, visible) && Fits(m, b, seen) && InScope(m, visible)
    ensures InScope(CloneOp(op, m).mapping, visible + Elements(op.results))
  {
    OpFits(op, m, b, seen, visible);
    MapResultsIs(CloneRegions(op.regions, m).mapping.values, op.results, CloneRegions(op.regions, m).mapping.next);
  }

  lemma {:induction false} OpRenames(op: Op, m: Mapping, b: Bounds, seen: set<nat>, visible: set<nat>, end: Mapping)
    requires GoodOp(op, b, seen, visible) && Fits(m, b, seen) && InScope(m, visible)
    requires Extends(CloneOp(op, m).mapping, end, b)
    ensures RenamedOp(op, CloneOp(op, m).tree, end.values)
    decreases op, 0
  {
    var inner, n := CloneRegions(op.regions, m).mapping, CloneOp(op, m).mapping;
    RegionsFit(op.regions, m, b, seen, visible);
    ResultsFit(inner, b, seen + DefsOfRegions(op.regions), op.results);
    ExtendsOn(inner, n, end, b);
    RegionsRename(op.regions, m, b, seen, visible, end);
    RemapStays(inner, end, b, visible, op.operands);
    MapResultsIs(inner.values, op.results, inner.next);
    forall i: nat | i < |op.results|
      ensures CloneOp(op, m).tree.results[i] == Remap(end.values, op.results[i])
    {
      assert op.results[i] in n.values;
    }
  }

  lemma {:induction false} RegionsRename(rs: seq<Region>, m: Mapping, b: Bounds, seen: set<nat>, visible: set<nat>, end: Mapping)
    requires GoodRegions(rs, b, seen, visible) && Fits(m, b, seen) && InScope(m, visible)
    requires Extends(CloneRegions(rs, m).mapping, end, b)
    ensures |CloneRegions(rs, m).tree| == |rs| && forall i: nat | i < |rs| :: RenamedRegion(rs[i], CloneRegions(rs, m).tree[i], end.values)
    decreases rs, 0
  {
    if rs != [] {
      var n := CloneRegion(rs[0], m).mapping;
      RegionFits(rs[0], m, b, seen, visible);
      RegionsFit(rs[1..], n, b, seen + DefsOfRegion(rs[0]), visible);
      ExtendsOn(n, CloneRegions(rs[1..], n).mapping, end, b);
      RegionRenames(rs[0], m, b, seen, visible, end);
      RegionsRename(rs[1..], n, b, seen + DefsOfRegion(rs[0]), visible, end);
    }
  }

  // ----- Evaluation.

  type Env = map<nat, int>

  type RegionFn = seq<int> -> seq<int>

  /** What an op computes from its operands and its regions' functions. */
  type Sem = (nat, seq<int>, seq<RegionFn>) -> seq<int>

  function Lookup(env: Env, v: nat): int { if v in env then env[v] else 0 }

  function Lookups(env: Env, vs: seq<nat>): (r: seq<int>)
    ensures |r| == |vs| && forall i: nat | i < |vs| :: r[i] == Lookup(env, vs[i])
  {
    seq(|vs|, i requires 0 <= i < |vs| => Lookup(env, vs[i]))
  }

  function Bind(env: Env, names: seq<nat>, vals: seq<int>): Env
    decreases |names|
  {
    if names == [] then env
    else Bind(env[names[0] := if vals == [] then 0 else vals[0]], names[1..], if vals == [] then [] else vals[1..])
  }

  function EvalRegion(sem: Sem, r: Region, env: Env, args: seq<int>): seq<int>
    decreases r, 0
  {
    Lookups(EvalOps(sem, r.ops, Bind(env, r.ports, args)), r.results)
  }

  function EvalOps(sem: Sem, ops: seq<Op>, env: Env): Env
    decreases ops, 0
  {
    if ops == [] then env else EvalOps(sem, ops[1..], EvalOp(sem, ops[0], env))
  }

  function EvalOp(sem: Sem, op: Op, env: Env): Env
    decreases op, 1
  {
    Bind(env, op.results, sem(op.name, Lookups(env, op.operands), Functions(sem, op, env)))
  }

  /** The function each region of an op is, where the op stands. */
  function Functions(sem: Sem, op: Op, env: Env): (fs: seq<RegionFn>)
    ensures |fs| == |op.regions|
    decreases op, 0
  {
    seq(|op.regions|, i requires 0 <= i < |op.regions| => (args: seq<int>) => EvalRegion(sem, op.regions[i], env, args))
  }

  /** Ops do the same with regions that compute the same. */
  ghost predicate Extensional(sem: Sem)
  {
    forall name: nat, vals: seq<int>, fs: seq<RegionFn>, gs: seq<RegionFn> ::
      SameFunctions(fs, gs) ==> sem(name, vals, fs) == sem(name, vals, gs)
  }

  ghost predicate SameFunctions(fs: seq<RegionFn>, gs: seq<RegionFn>)
  {
    |fs| == |gs| && forall i: nat, args: seq<int> | i < |fs| :: fs[i](args) == gs[i](args)
  }

  // ----- Evaluation under the renaming.

  /** What a reference is in the source it is, renamed, in the copy. */
  ghost predicate Agree(env: Env, copy: Env, m: Mapping, b: Bounds, visible: set<nat>)
  {
    forall v | OkRef(b, visible, v) :: Lookup(copy, Remap(m.values, v)) == Lookup(env, v)
  }

  lemma {:induction false} BindIs(env: Env, names: seq<nat>, vals: seq<int>)
    requires Distinct(names)
    ensures forall v: nat | v !in names :: Lookup(Bind(env, names, vals), v) == Lookup(env, v)
    ensures forall i: nat | i < |names| :: Lookup(Bind(env, names, vals), names[i]) == if i < |vals| then vals[i] else 0
    decreases |names|
  {
    if names != [] {
      var rest := names[1..];
      assert names == [names[0]] + rest;
      assert forall i: nat | i < |rest| :: rest[i] == names[i + 1];
      BindIs(env[names[0] := if vals == [] then 0 else vals[0]], rest, if vals == [] then [] else vals[1..]);
    }
  }

  /** Values bound to new definitions and to their copies agree. */
  lemma {:induction false} BindAgrees(env: Env, copy: Env, m: Mapping, n: Mapping, b: Bounds, seen: set<nat>, visible: set<nat>, names: seq<nat>, vals: seq<int>)
    requires Agree(env, copy, m, b, visible) && Fits(m, b, seen) && NewDefs(b, seen, names) && InScope(m, visible)
    requires n.values.Keys == m.values.Keys + Elements(names) && (forall v | v in m.values :: n.values[v] == m.values[v])
    requires forall i: nat | i < |names| :: names[i] in n.values && n.values[names[i]] == m.next + i
    requires forall v | v in visible :: v in b.all
    ensures Agree(Bind(env, names, vals), Bind(copy, Minted(m.next, |names|), vals), n, b, visible + Elements(names))
  {
    var copies := Minted(m.next, |names|);
    BindIs(env, names, vals);
    BindIs(copy, copies, vals);
    forall v | OkRef(b, visible + Elements(names), v)
      ensures Lookup(Bind(copy, copies, vals), Remap(n.values, v)) == Lookup(Bind(env, names, vals), v)
    {
      if v in names {
        var i: nat :| i < |names| && names[i] == v;
        assert copies[i] == Remap(n.values, v);
      } else {
        assert OkRef(b, visible, v);
        assert Remap(n.values, v) == Remap(m.values, v) < m.next;
      }
    }
  }

  lemma {:induction false} LookupsAgree(env: Env, copy: Env, m: Mapping, b: Bounds, visible: set<nat>, vs: seq<nat>)
    requires Agree(env, copy, m, b, visible) && OkRefs(b, visible, vs)
    ensures Lookups(copy, RemapAll(m.values, vs)) == Lookups(env, vs)
  {
  }

  lemma {:induction false} AgreeStays(env: Env, copy: Env, m: Mapping, n: Mapping, b: Bounds, visible: set<nat>)
    requires Agree(env, copy, m, b, visible) && Extends(m, n, b) && InScope(m, visible)
    ensures Agree(env, copy, n, b, visible) && InScope(n, visible)
  {
  }

  lemma {:induction false} RegionEvaluates(sem: Sem, r: Region, m: Mapping, b: Bounds, seen: set<nat>, visible: set<nat>, env: Env, copy: Env, args: seq<int>)
    requires Extensional(sem) && GoodRegion(r, b, seen, visible) && Fits(m, b, seen) && InScope(m, visible)
    requires visible <= b.all && Agree(env, copy, m, b, visible)
    ensures EvalRegion(sem, CloneRegion(r, m).tree, copy, args) == EvalRegion(sem, r, env, args)
    decreases r, 0
  {
    PortsFit(m, b, seen, r.ports);
    MapPortsIs(m.values, r.ports, m.next);
    var n := Mapping(MapPorts(m.values, r.ports, m.next), m.next + |r.ports|);
    forall i: nat | i < |r.ports|
      ensures r.ports[i] in n.values && n.values[r.ports[i]] == m.next + i
    {
      assert r.ports[i] in r.ports;
    }
    BindAgrees(env, copy, m, n, b, seen, visible, r.ports, args);
    OpsEvaluate(sem, r.ops, n, b, seen + Elements(r.ports), visible + Elements(r.ports), r.results,
                Bind(env, r.ports, args), Bind(copy, Minted(m.next, |r.ports|), args));
  }

  lemma {:induction false} OpsEvaluate(sem: Sem, ops: seq<Op>, m: Mapping, b: Bounds, seen: set<nat>, visible: set<nat>, results: seq<nat>, env: Env, copy: Env)
    requires Extensional(sem) && GoodOps(ops, b, seen, visible, results) && Fits(m, b, seen) && InScope(m, visible)
    requires visible <= b.all && Agree(env, copy, m, b, visible)
    ensures Lookups(EvalOps(sem, CloneOps(ops, m).tree, copy), RemapAll(CloneOps(ops, m).mapping.values, results))
         == Lookups(EvalOps(sem, ops, env), results)
    decreases ops, 0
  {
    if ops == [] {
      LookupsAgree(env, copy, m, b, visible, results);
    } else {
      var op, c := ops[0], CloneOp(ops[0], m);
      var rest := CloneOps(ops[1..], c.mapping);
      OpEvaluates(sem, op, m, b, seen, visible, env, copy);
      OpFits(op, m, b, seen, visible);
      ResultsInScope(op, m, b, seen, visible);
      OpsEvaluate(sem, ops[1..], c.mapping, b, seen + DefsOfOp(op), visible + Elements(op.results), results,
                  EvalOp(sem, op, env), EvalOp(sem, c.tree, copy));
      assert ([c.tree] + rest.tree)[1..] == rest.tree;
    }
  }

  lemma {:induction false} OpEvaluates(sem: Sem, op: Op, m: Mapping, b: Bounds, seen: set<nat>, visible: set<nat>, env: Env, copy: Env)
    requires Extensional(sem) && GoodOp(op, b, seen, visible) && Fits(m, b, seen) && InScope(m, visible)
    requires visible <= b.all && Agree(env, copy, m, b, visible)
    ensures Agree(EvalOp(sem, op, env), EvalOp(sem, CloneOp(op, m).tree, copy), CloneOp(op, m).mapping, b, visible + Elements(op.results))
    ensures Elements(op.results) <= b.all
    decreases op, 0
  {
    var c := CloneOp(op, m);
    var inner := CloneRegions(op.regions, m).mapping;
    RegionsFit(op.regions, m, b, seen, visible);
    AgreeStays(env, copy, m, inner, b, visible);
    LookupsAgree(env, copy, inner, b, visible, op.operands);
    FunctionsAgree(sem, op, m, b, seen, visible, env, copy);
    var vals := sem(op.name, Lookups(env, op.operands), Functions(sem, op, env));
    assert vals == sem(c.tree.name, Lookups(copy, c.tree.operands), Functions(sem, c.tree, copy));
    MapResultsIs(inner.values, op.results, inner.next);
    BindAgrees(env, copy, inner, c.mapping, b, seen + DefsOfRegions(op.regions), visible, op.results, vals);
  }

  lemma {:induction false} FunctionsAgree(sem: Sem, op: Op, m: Mapping, b: Bounds, seen: set<nat>, visible: set<nat>, env: Env, copy: Env)
    requires Extensional(sem) && GoodRegions(op.regions, b, seen, visible) && Fits(m, b, seen) && InScope(m, visible)
    requires visible <= b.all && Agree(env, copy, m, b, visible)
    ensures SameFunctions(Functions(sem, op, env), Functions(sem, CloneOp(op, m).tree, copy))
    decreases op.regions, 1
  {
    var c := CloneOp(op, m).tree;
    RegionsEvaluate(sem, op.regions, m, b, seen, visible, env, copy);
    forall i: nat, args: seq<int> | i < |op.regions|
      ensures Functions(sem, op, env)[i](args) == Functions(sem, c, copy)[i](args)
    {
    }
  }

  lemma {:induction false} RegionsEvaluate(sem: Sem, rs: seq<Region>, m: Mapping, b: Bounds, seen: set<nat>, visible: set<nat>, env: Env, copy: Env)
    requires Extensional(sem) && GoodRegions(rs, b, seen, visible) && Fits(m, b, seen) && InScope(m, visible)
    requires visible <= b.all && Agree(env, copy, m, b, visible)
    ensures |CloneRegions(rs, m).tree| == |rs|
    ensures forall i: nat, args: seq<int> | i < |rs| ::
              EvalRegion(sem, CloneRegions(rs, m).tree[i], copy, args) == EvalRegion(sem, rs[i], env, args)
    decreases rs, 0
  {
    if rs != [] {
      var n := CloneRegion(rs[0], m).mapping;
      RegionFits(rs[0], m, b, seen, visible);
      AgreeStays(env, copy, m, n, b, visible);
      RegionsEvaluate(sem, rs[1..], n, b, seen + DefsOfRegion(rs[0]), visible, env, copy);
      var tree := CloneRegions(rs, m).tree;
      forall i: nat, args: seq<int> | i < |rs|
        ensures EvalRegion(sem, tree[i], copy, args) == EvalRegion(sem, rs[i], env, args)
      {
        if i == 0 {
          RegionEvaluates(sem, rs[0], m, b, seen, visible, env, copy, args);
        } else {
          assert rs[i] == rs[1..][i - 1] && tree[i] == CloneRegions(rs[1..], n).tree[i - 1];
        }
      }
    }
  }
}
