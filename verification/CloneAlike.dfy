/**
  The order of an unordered region's ops does not matter: however the ops are
  sorted, here and at every depth, the region evaluates to the same results.
 */
module CloneAlike {
  import opened Seqs
  import opened Clone
  import opened CloneTheorems
  import opened CloneRegions
  import opened CloneOrder
  import opened CloneSorted

  ghost predicate AgreeOn(a: Env, b: Env, names: set<nat>) { forall v | v in names :: Lookup(a, v) == Lookup(b, v) }

  // ----- What is evaluated depends only on what is named.

  lemma {:induction false} BindKeepsAgreement(a: Env, b: Env, names: set<nat>, bound: seq<nat>, vals: seq<int>)
    requires AgreeOn(a, b, names)
    ensures AgreeOn(Bind(a, bound, vals), Bind(b, bound, vals), names)
    decreases |bound|
  {
    if bound != [] {
      var first, rest := if vals == [] then 0 else vals[0], if vals == [] then [] else vals[1..];
      BindKeepsAgreement(a[bound[0] := first], b[bound[0] := first], names, bound[1..], rest);
    }
  }

  lemma {:induction false} RegionReads(sem: Sem, r: Region, a: Env, b: Env, args: seq<int>)
    requires Extensional(sem) && AgreeOn(a, b, NamesOfRegion(r))
    ensures EvalRegion(sem, r, a, args) == EvalRegion(sem, r, b, args)
    decreases r, 0
  {
    var names := NamesOfRegion(r);
    BindKeepsAgreement(a, b, names, r.ports, args);
    OpsRead(sem, r.ops, Bind(a, r.ports, args), Bind(b, r.ports, args), names);
    assert forall v | v in r.results :: v in Elements(r.results);
  }

  lemma {:induction false} OpsRead(sem: Sem, ops: seq<Op>, a: Env, b: Env, names: set<nat>)
    requires Extensional(sem) && AgreeOn(a, b, names) && NamesOfOps(ops) <= names
    ensures AgreeOn(EvalOps(sem, ops, a), EvalOps(sem, ops, b), names)
    decreases ops, 0
  {
    if ops != [] {
      OpReads(sem, ops[0], a, b);
      OpsRead(sem, ops[1..], EvalOp(sem, ops[0], a), EvalOp(sem, ops[0], b), names) by {
        BindKeepsAgreement(a, b, names, ops[0].results, sem(ops[0].name, Lookups(a, ops[0].operands), Functions(sem, ops[0], a)));
      }
    }
  }

  /** What an op computes. */
  function Computed(sem: Sem, op: Op, env: Env): seq<int> { sem(op.name, Lookups(env, op.operands), Functions(sem, op, env)) }

  lemma {:induction false} OpReads(sem: Sem, op: Op, a: Env, b: Env)
    requires Extensional(sem) && AgreeOn(a, b, NamesOfOp(op))
    ensures Computed(sem, op, a) == Computed(sem, op, b)
    decreases op, 0
  {
    assert forall v | v in op.operands :: v in Elements(op.operands);
    assert Lookups(a, op.operands) == Lookups(b, op.operands);
    forall i: nat, args: seq<int> | i < |op.regions|
      ensures Functions(sem, op, a)[i](args) == Functions(sem, op, b)[i](args)
    {
      NamesOfOne(op.regions, i);
      RegionReads(sem, op.regions[i], a, b, args);
    }
    assert SameFunctions(Functions(sem, op, a), Functions(sem, op, b));
  }

  lemma {:induction false} NamesOfOne(rs: seq<Region>, i: nat)
    requires i < |rs|
    ensures NamesOfRegion(rs[i]) <= NamesOfRegions(rs)
  {
    if i > 0 {
      NamesOfOne(rs[1..], i - 1);
    }
  }

  // ----- Sorted ops: each computes from the final values.

  lemma {:induction false} OpsKeep(sem: Sem, ops: seq<Op>, env: Env, v: nat)
    requires v !in ResultsOf(ops) && forall i: nat | i < |ops| :: Distinct(ops[i].results)
    ensures Lookup(EvalOps(sem, ops, env), v) == Lookup(env, v)
    decreases |ops|
  {
    if ops != [] {
      BindIs(env, ops[0].results, Computed(sem, ops[0], env));
      assert v !in Elements(ops[0].results);
      OpsKeep(sem, ops[1..], EvalOp(sem, ops[0], env), v);
    }
  }

  /** Each op names no result of itself or of a later op, and defines none of theirs. */
  ghost predicate Causal(ops: seq<Op>)
  {
    ops == [] ||
    (NamesOfOp(ops[0]) !! ResultsOf(ops) && Elements(ops[0].results) !! ResultsOf(ops[1..]) && Distinct(ops[0].results) && Causal(ops[1..]))
  }

  lemma {:induction false} ResultsAreDefs(ops: seq<Op>)
    ensures ResultsOf(ops) <= DefsOfOps(ops)
  {
    if ops != [] {
      ResultsAreDefs(ops[1..]);
    }
  }

  lemma {:induction false} OrderedIsCausal(ops: seq<Op>, visible: set<nat>, wide: set<nat>)
    requires Ordered(ops, visible, wide) && ResultsOf(ops) <= wide && visible !! ResultsOf(ops)
    requires ApartOps(ops) && forall i: nat | i < |ops| :: Distinct(ops[i].results)
    ensures Causal(ops)
    decreases |ops|
  {
    if ops != [] {
      RestApart(ops);
      ResultsAreDefs(ops[1..]);
      OrderedIsCausal(ops[1..], visible + Elements(ops[0].results), wide);
    }
  }

  ghost predicate ComputesAt(sem: Sem, op: Op, env: Env)
  {
    forall k: nat | k < |op.results| :: Lookup(env, op.results[k]) == if k < |Computed(sem, op, env)| then Computed(sem, op, env)[k] else 0
  }

  lemma {:induction false} FirstComputes(sem: Sem, ops: seq<Op>, env: Env)
    requires Extensional(sem) && ops != [] && Causal(ops) && forall i: nat | i < |ops| :: Distinct(ops[i].results)
    ensures ComputesAt(sem, ops[0], EvalOps(sem, ops, env))
  {
    var op, end := ops[0], EvalOps(sem, ops, env);
    var vals := Computed(sem, op, env);
    var next := EvalOp(sem, op, env);
    BindIs(env, op.results, vals);
    forall v | v in NamesOfOp(op)
      ensures Lookup(env, v) == Lookup(end, v)
    {
      OpsKeep(sem, ops, env, v);
    }
    OpReads(sem, op, env, end);
    forall k: nat | k < |op.results|
      ensures Lookup(end, op.results[k]) == if k < |vals| then vals[k] else 0
    {
      assert op.results[k] in Elements(op.results);
      OpsKeep(sem, ops[1..], next, op.results[k]);
    }
  }

  /** In the end every result is what its op computes from the final values. */
  lemma {:induction false} AllCompute(sem: Sem, ops: seq<Op>, env: Env, i: nat)
    requires Extensional(sem) && Causal(ops) && i < |ops| && forall j: nat | j < |ops| :: Distinct(ops[j].results)
    ensures ComputesAt(sem, ops[i], EvalOps(sem, ops, env))
    decreases |ops|
  {
    if i == 0 {
      FirstComputes(sem, ops, env);
    } else {
      AllCompute(sem, ops[1..], EvalOp(sem, ops[0], env), i - 1);
    }
  }

  lemma {:induction false} CausalAt(ops: seq<Op>, i: nat, v: nat)
    requires Causal(ops) && i < |ops| && v in NamesOfOp(ops[i]) && v in ResultsOf(ops)
    ensures v in ResultsOf(ops[..i])
    decreases |ops|
  {
    if i > 0 {
      assert ops[..i][1..] == ops[1..][..i - 1];
      if v !in Elements(ops[0].results) {
        CausalAt(ops[1..], i - 1, v);
      }
    }
  }

  /** The values once the ops have run: other values are kept, and every result is computed from these. */
  ghost predicate Solves(sem: Sem, ops: seq<Op>, env: Env, end: Env)
  {
    && (forall v: nat | v !in ResultsOf(ops) :: Lookup(end, v) == Lookup(env, v))
    && forall i: nat | i < |ops| :: ComputesAt(sem, ops[i], end)
  }

  lemma {:induction false} EvalSolves(sem: Sem, ops: seq<Op>, env: Env)
    requires Extensional(sem) && Causal(ops) && forall i: nat | i < |ops| :: Distinct(ops[i].results)
    ensures Solves(sem, ops, env, EvalOps(sem, ops, env))
  {
    forall v: nat | v !in ResultsOf(ops)
      ensures Lookup(EvalOps(sem, ops, env), v) == Lookup(env, v)
    {
      OpsKeep(sem, ops, env, v);
    }
    forall i: nat | i < |ops|
      ensures ComputesAt(sem, ops[i], EvalOps(sem, ops, env))
    {
      AllCompute(sem, ops, env, i);
    }
  }

  // ----- Two sorted orders.

  ghost predicate SortedOps(ops: seq<Op>)
  {
    Causal(ops) && forall i: nat | i < |ops| :: Distinct(ops[i].results) && SortedOp(ops[i])
  }

  lemma {:induction false} SortedIsCausal(r: Region, s: Region, p: seq<nat>, b: Bounds, visible: set<nat>)
    requires Verified(r, b, visible) && Shuffled(p, r.ops, s.ops) && Sorted(s)
    ensures SortedOps(s.ops)
  {
    var inside := visible + Elements(r.ports) + ResultsOf(r.ops);
    assert forall i: nat | i < |r.ops| :: VerifiedOp(r.ops[i], b, inside);
    SameApart(p, r.ops, s.ops);
    OrderedIsCausal(s.ops, {}, ResultsOf(s.ops));
  }

  /** Two sorted versions of a verified region evaluate alike, over values that agree on what it names. */
  lemma {:induction false} RegionAlike(sem: Sem, r: Region, s: Region, t: Region, b: Bounds, visible: set<nat>, e: Env, f: Env, args: seq<int>)
    requires Extensional(sem) && Verified(r, b, visible) && AgreeOn(e, f, NamesOfRegion(r))
    requires SameRegion(r, s) && Sorted(s) && SameRegion(r, t) && Sorted(t)
    ensures EvalRegion(sem, s, e, args) == EvalRegion(sem, t, f, args)
    decreases r, 0
  {
    var p: seq<nat> :| Shuffled(p, r.ops, s.ops);
    var q: seq<nat> :| Shuffled(q, r.ops, t.ops);
    SortedIsCausal(r, s, p, b, visible);
    SortedIsCausal(r, t, q, b, visible);
    var names, e', f' := NamesOfRegion(r), Bind(e, r.ports, args), Bind(f, r.ports, args);
    BindKeepsAgreement(e, f, names, r.ports, args);
    EvalSolves(sem, s.ops, e');
    EvalSolves(sem, t.ops, f');
    SolutionsAgree(sem, r.ops, p, s.ops, q, t.ops, b, visible + Elements(r.ports) + ResultsOf(r.ops), e', f', names,
                   EvalOps(sem, s.ops, e'), EvalOps(sem, t.ops, f'));
    assert forall v | v in r.results :: v in Elements(r.results);
  }

  ghost predicate IsVerified(ops: seq<Op>, b: Bounds, visible: set<nat>) { forall i: nat | i < |ops| :: VerifiedOp(ops[i], b, visible) }

  lemma {:induction false} SolutionsAgree(sem: Sem, ops: seq<Op>, p: seq<nat>, x: seq<Op>, q: seq<nat>, y: seq<Op>, b: Bounds, visible: set<nat>,
                                          e: Env, f: Env, names: set<nat>, end: Env, other: Env)
    requires Extensional(sem) && Shuffled(p, ops, x) && Shuffled(q, ops, y) && SortedOps(x) && SortedOps(y) && IsVerified(ops, b, visible)
    requires AgreeOn(e, f, names) && NamesOfOps(ops) <= names && Solves(sem, x, e, end) && Solves(sem, y, f, other)
    ensures AgreeOn(end, other, names)
    decreases ops, 1
  {
    SameOpsSets(p, ops, x);
    SameOpsSets(q, ops, y);
    assert Outside(x, names, end, other);
    FirstAgree(sem, ops, p, x, q, y, b, visible, e, f, names, end, other, |x|);
    assert x[..|x|] == x;
  }

  /** What the ops do not define agrees, and what they name does or they define it. */
  ghost predicate Outside(x: seq<Op>, names: set<nat>, end: Env, other: Env)
  {
    NamesOfOps(x) <= names && forall v | v in names && v !in ResultsOf(x) :: Lookup(end, v) == Lookup(other, v)
  }

  /** Op by op in one order: what it defines is the same in the other. */
  lemma {:induction false} FirstAgree(sem: Sem, ops: seq<Op>, p: seq<nat>, x: seq<Op>, q: seq<nat>, y: seq<Op>, b: Bounds, visible: set<nat>,
                                      e: Env, f: Env, names: set<nat>, end: Env, other: Env, n: nat)
    requires Extensional(sem) && Shuffled(p, ops, x) && Shuffled(q, ops, y) && SortedOps(x) && SortedOps(y) && IsVerified(ops, b, visible)
    requires Outside(x, names, end, other) && Solves(sem, x, e, end) && Solves(sem, y, f, other) && n <= |x|
    ensures AgreeOn(end, other, ResultsOf(x[..n]))
    decreases ops, 0, n
  {
    if n > 0 {
      var i := n - 1;
      FirstAgree(sem, ops, p, x, q, y, b, visible, e, f, names, end, other, i);
      OperandsAgree(x, names, end, other, i);
      SameOpSets(ops[p[i]], x[i]);
      var j := PlaceOf(q, |ops|, p[i]);
      OpAlike(sem, ops[p[i]], x[i], y[j], b, visible, end, other);
      ResultsAgree(sem, x[i], y[j], end, other);
      ResultsPush(x, i);
    }
  }

  lemma {:induction false} ResultsAgree(sem: Sem, x: Op, y: Op, end: Env, other: Env)
    requires ComputesAt(sem, x, end) && ComputesAt(sem, y, other) && Computed(sem, x, end) == Computed(sem, y, other) && x.results == y.results
    ensures AgreeOn(end, other, Elements(x.results))
  {
    forall v | v in Elements(x.results)
      ensures Lookup(end, v) == Lookup(other, v)
    {
      var k: nat :| k < |x.results| && x.results[k] == v;
      assert y.results[k] == v;
    }
  }

  lemma {:induction false} PlaceOf(p: seq<nat>, n: nat, k: nat) returns (i: nat)
    requires IsShuffle(p, n) && k < n
    ensures i < n && p[i] == k
  {
    assert k in p;
    i :| i < |p| && p[i] == k;
  }

  lemma {:induction false} OperandsAgree(x: seq<Op>, names: set<nat>, end: Env, other: Env, i: nat)
    requires Causal(x) && Outside(x, names, end, other) && i < |x| && AgreeOn(end, other, ResultsOf(x[..i]))
    ensures AgreeOn(end, other, NamesOfOp(x[i]))
  {
    NamesMembers(x);
    forall v | v in NamesOfOp(x[i])
      ensures Lookup(end, v) == Lookup(other, v)
    {
      if v in ResultsOf(x) {
        CausalAt(x, i, v);
      }
    }
  }

  lemma {:induction false} OpAlike(sem: Sem, op: Op, x: Op, y: Op, b: Bounds, visible: set<nat>, e: Env, f: Env)
    requires Extensional(sem) && VerifiedOp(op, b, visible) && AgreeOn(e, f, NamesOfOp(op))
    requires SameOp(op, x) && SortedOp(x) && SameOp(op, y) && SortedOp(y)
    ensures Computed(sem, x, e) == Computed(sem, y, f)
    decreases op, 0
  {
    assert forall v | v in op.operands :: v in Elements(op.operands);
    assert Lookups(e, op.operands) == Lookups(f, op.operands);
    forall i: nat, args: seq<int> | i < |op.regions|
      ensures Functions(sem, x, e)[i](args) == Functions(sem, y, f)[i](args)
    {
      NamesOfOne(op.regions, i);
      RegionAlike(sem, op.regions[i], x.regions[i], y.regions[i], b, visible, e, f, args);
    }
    assert SameFunctions(Functions(sem, x, e), Functions(sem, y, f));
  }
}
