/**
  Why copying in topological order puts every definition before the
  references to it: a region whose references are merely in scope somewhere
  among the siblings becomes well scoped once its ops are so ordered.
 */
module CloneOrder {
  import opened Seqs
  import opened Clone
  import opened CloneRegions
  import T = TopologicalOrder

  /** Of these names, those in the wider scope are in the narrower one. */
  ghost predicate Within(names: set<nat>, wide: set<nat>, narrow: set<nat>) { forall v | v in names && v in wide :: v in narrow }

  lemma {:induction false} TightenRegion(r: Region, b: Bounds, seen: set<nat>, wide: set<nat>, narrow: set<nat>)
    requires GoodRegion(r, b, seen, wide) && Within(NamesOfRegion(r), wide, narrow)
    ensures GoodRegion(r, b, seen, narrow)
    decreases r, 0
  {
    var ports := Elements(r.ports);
    TightenOps(r.ops, b, seen + ports, wide + ports, narrow + ports, r.results);
  }

  lemma {:induction false} TightenOps(ops: seq<Op>, b: Bounds, seen: set<nat>, wide: set<nat>, narrow: set<nat>, results: seq<nat>)
    requires GoodOps(ops, b, seen, wide, results) && Within(NamesOfOps(ops) + Elements(results), wide, narrow)
    ensures GoodOps(ops, b, seen, narrow, results)
    decreases ops, 0
  {
    if ops != [] {
      var made := Elements(ops[0].results);
      TightenOp(ops[0], b, seen, wide, narrow);
      TightenOps(ops[1..], b, seen + DefsOfOp(ops[0]), wide + made, narrow + made, results);
    } else {
      assert forall v | v in results :: v in Elements(results);
    }
  }

  lemma {:induction false} TightenOp(op: Op, b: Bounds, seen: set<nat>, wide: set<nat>, narrow: set<nat>)
    requires GoodOp(op, b, seen, wide) && Within(NamesOfOp(op), wide, narrow)
    ensures GoodOp(op, b, seen, narrow)
    decreases op, 0
  {
    TightenRegions(op.regions, b, seen, wide, narrow);
    assert forall v | v in op.operands :: v in Elements(op.operands);
  }

  lemma {:induction false} TightenRegions(rs: seq<Region>, b: Bounds, seen: set<nat>, wide: set<nat>, narrow: set<nat>)
    requires GoodRegions(rs, b, seen, wide) && Within(NamesOfRegions(rs), wide, narrow)
    ensures GoodRegions(rs, b, seen, narrow)
    decreases rs, 0
  {
    if rs != [] {
      TightenRegion(rs[0], b, seen, wide, narrow);
      TightenRegions(rs[1..], b, seen + DefsOfRegion(rs[0]), wide, narrow);
    }
  }

  /** Every op is good in the scope of all of its siblings. */
  ghost predicate LooseOps(ops: seq<Op>, b: Bounds, seen: set<nat>, wide: set<nat>)
  {
    ops == [] || (GoodOp(ops[0], b, seen, wide) && LooseOps(ops[1..], b, seen + DefsOfOp(ops[0]), wide))
  }

  ghost function ResultsOf(ops: seq<Op>): set<nat>
  {
    if ops == [] then {} else Elements(ops[0].results) + ResultsOf(ops[1..])
  }

  /** Each op names, of the wider scope, only what is visible when its turn comes. */
  ghost predicate Ordered(ops: seq<Op>, visible: set<nat>, wide: set<nat>)
  {
    ops == [] || (Within(NamesOfOp(ops[0]), wide, visible) && Ordered(ops[1..], visible + Elements(ops[0].results), wide))
  }

  lemma {:induction false} OrderedIsGood(ops: seq<Op>, b: Bounds, seen: set<nat>, visible: set<nat>, wide: set<nat>, results: seq<nat>)
    requires LooseOps(ops, b, seen, wide) && Ordered(ops, visible, wide)
    requires OkRefs(b, visible + ResultsOf(ops), results)
    ensures GoodOps(ops, b, seen, visible, results)
    decreases |ops|
  {
    if ops == [] {
      assert visible + ResultsOf(ops) == visible;
    } else {
      var made := Elements(ops[0].results);
      TightenOp(ops[0], b, seen, wide, visible);
      assert visible + ResultsOf(ops) == visible + made + ResultsOf(ops[1..]);
      OrderedIsGood(ops[1..], b, seen + DefsOfOp(ops[0]), visible + made, wide, results);
    }
  }

  /** The trees of the ops in an order of their ids. */
  ghost function Listed(order: seq<nat>, tree: map<nat, Op>): (ops: seq<Op>)
    requires forall op | op in order :: op in tree
    ensures |ops| == |order| && forall i: nat | i < |order| :: ops[i] == tree[order[i]]
  {
    seq(|order|, i requires 0 <= i < |order| => tree[order[i]])
  }

  /** The sibling reads are the names of a sibling's results, nested ones included. */
  ghost predicate ReadsMatch(tree: map<nat, Op>, rel: T.Reads)
  {
    forall a, b, v | a in tree && b in tree && v in NamesOfOp(tree[a]) && v in tree[b].results :: b in T.Of(rel, a)
  }

  /** A topological order of the siblings is in order. */
  lemma {:induction false} TopologicalIsOrdered(order: seq<nat>, tree: map<nat, Op>, rel: T.Reads, visible: set<nat>)
    requires T.IsOrder(tree.Keys, rel, order) && ReadsMatch(tree, rel) && forall op | op in order :: op in tree
    ensures Ordered(Listed(order, tree), visible, visible + ResultsOf(Listed(order, tree)))
  {
    assert Listed(order, tree)[..0] == [] && Listed(order, tree)[0..] == Listed(order, tree);
    assert visible + ResultsOf([]) == visible;
    OrderedFrom(order, tree, rel, visible, 0);
  }

  lemma {:induction false} ResultsMembers(ops: seq<Op>)
    ensures forall v: nat :: v in ResultsOf(ops) <==> exists i: nat :: i < |ops| && v in ops[i].results
  {
    if ops != [] {
      ResultsMembers(ops[1..]);
      assert forall i: nat | i < |ops| - 1 :: ops[1..][i] == ops[i + 1];
      forall v: nat | exists i: nat :: i < |ops| && v in ops[i].results
        ensures v in ResultsOf(ops)
      {
        var i: nat :| i < |ops| && v in ops[i].results;
        assert i > 0 ==> ops[1..][i - 1] == ops[i];
      }
    }
  }

  lemma {:induction false} ResultsPush(ops: seq<Op>, k: nat)
    requires k < |ops|
    ensures ResultsOf(ops[..k + 1]) == ResultsOf(ops[..k]) + Elements(ops[k].results)
  {
    var before, after := ops[..k], ops[..k + 1];
    ResultsMembers(before);
    ResultsMembers(after);
    forall v: nat
      ensures v in ResultsOf(after) <==> v in ResultsOf(before) || v in ops[k].results
    {
      if i: nat :| i < |before| && v in before[i].results {
        assert after[i] == before[i];
      }
      if i: nat :| i < |after| && v in after[i].results {
        assert i < k ==> before[i] == after[i];
      }
      if v in ops[k].results {
        assert after[k] == ops[k];
      }
    }
  }

  lemma {:induction false} OrderedFrom(order: seq<nat>, tree: map<nat, Op>, rel: T.Reads, visible: set<nat>, k: nat)
    requires T.IsOrder(tree.Keys, rel, order) && ReadsMatch(tree, rel) && (forall op | op in order :: op in tree) && k <= |order|
    ensures var ops := Listed(order, tree);
            Ordered(ops[k..], visible + ResultsOf(ops[..k]), visible + ResultsOf(ops))
    decreases |order| - k
  {
    var ops := Listed(order, tree);
    if k < |order| {
      OrderedFrom(order, tree, rel, visible, k + 1);
      assert ops[k..][1..] == ops[k + 1..];
      ResultsPush(ops, k);
      assert visible + ResultsOf(ops[..k + 1]) == visible + ResultsOf(ops[..k]) + Elements(ops[k].results);
      NamesEarlier(order, tree, rel, visible, k);
    }
  }

  lemma {:induction false} NamesEarlier(order: seq<nat>, tree: map<nat, Op>, rel: T.Reads, visible: set<nat>, k: nat)
    requires T.IsOrder(tree.Keys, rel, order) && ReadsMatch(tree, rel) && (forall op | op in order :: op in tree) && k < |order|
    ensures var ops := Listed(order, tree);
            Within(NamesOfOp(ops[k]), visible + ResultsOf(ops), visible + ResultsOf(ops[..k]))
  {
    var ops := Listed(order, tree);
    ResultsMembers(ops);
    ResultsMembers(ops[..k]);
    forall v | v in NamesOfOp(ops[k]) && v in ResultsOf(ops)
      ensures v in ResultsOf(ops[..k])
    {
      var j: nat :| j < |ops| && v in ops[j].results;
      var i := ProducerEarlier(order, tree, rel, k, j, v);
      assert ops[..k][i] == ops[j];
    }
  }

  lemma {:induction false} ProducerEarlier(order: seq<nat>, tree: map<nat, Op>, rel: T.Reads, k: nat, j: nat, v: nat) returns (i: nat)
    requires T.IsOrder(tree.Keys, rel, order) && ReadsMatch(tree, rel) && k < |order| && j < |order| && order[k] in tree && order[j] in tree
    requires v in NamesOfOp(tree[order[k]]) && v in tree[order[j]].results
    ensures i < k && order[i] == order[j]
  {
    assert order[j] in T.Of(rel, order[k]);
    assert T.Met(T.Of(rel, order[k]), Elements(order[..k]));
    i :| i < k && order[..k][i] == order[j];
  }
}
