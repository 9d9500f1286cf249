/**
  Demand-driven execution of an unordered region: a value is run by running
  the op that defines it, after everything that op reads, each op at most
  once.
 */
module Demand {
  import opened Seqs
  import opened Options

  /** Which op defines a value, which unordered region an op sits in, and the values it reads, nested reads included. */
  datatype Graph = Graph(defs: map<nat, nat>, home: map<nat, nat>, read: map<nat, seq<nat>>)

  ghost predicate Defines(g: Graph, r: nat, op: nat, v: nat) { v in g.defs && g.defs[v] == op && op in g.home && g.home[op] == r }

  ghost predicate Reads(g: Graph, op: nat, v: nat) { op in g.read && v in g.read[op] }

  /** The op of region `r` that defines the value, if one does. */
  function Producer(g: Graph, r: nat, v: nat): (p: Option<nat>)
    ensures forall op: nat :: p == Some(op) <==> Defines(g, r, op, v)
  {
    if v in g.defs && g.defs[v] in g.home && g.home[g.defs[v]] == r then Some(g.defs[v]) else None
  }

  function ValuesRead(g: Graph, op: nat): (vs: seq<nat>)
    ensures forall v: nat :: v in vs <==> Reads(g, op, v)
  {
    if op in g.read then g.read[op] else []
  }

  ghost function OpsIn(g: Graph, r: nat): set<nat> { set op | op in g.home && g.home[op] == r }

  /** The op reads a value its sibling defines. */
  ghost predicate ReadsOp(g: Graph, r: nat, reader: nat, producer: nat)
  {
    exists v: nat :: Reads(g, reader, v) && Defines(g, r, producer, v)
  }

  // ----- What a set of values needs.

  ghost predicate Closed(g: Graph, r: nat, s: set<nat>)
  {
    forall reader: nat, producer: nat | reader in s && ReadsOp(g, r, reader, producer) :: producer in s
  }

  ghost predicate Has(g: Graph, r: nat, s: set<nat>, v: nat) { forall op: nat | Defines(g, r, op, v) :: op in s }

  ghost predicate HasAll(g: Graph, r: nat, s: set<nat>, values: set<nat>) { forall v | v in values :: Has(g, r, s, v) }

  /** The least set of ops that defines the values and everything those ops read. */
  ghost predicate IsCone(g: Graph, r: nat, values: set<nat>, s: set<nat>)
  {
    && Closed(g, r, s) && HasAll(g, r, s, values)
    && forall t: set<nat> | Closed(g, r, t) && HasAll(g, r, t, values) :: s <= t
  }

  lemma ConeIsUnique(g: Graph, r: nat, values: set<nat>, s: set<nat>, t: set<nat>)
    requires IsCone(g, r, values, s) && IsCone(g, r, values, t)
    ensures s == t
  {
  }

  // ----- Execution.

  ghost predicate NoCycle(g: Graph, r: nat)
  {
    forall cycle: seq<nat> :: !IsCycle(g, r, cycle)
  }

  ghost predicate Chain(g: Graph, r: nat, stack: seq<nat>)
  {
    forall i: nat | i + 1 < |stack| :: ReadsOp(g, r, stack[i], stack[i + 1])
  }

  ghost predicate IsCycle(g: Graph, r: nat, cycle: seq<nat>)
  {
    cycle != [] && Chain(g, r, cycle) && ReadsOp(g, r, cycle[|cycle| - 1], cycle[0])
  }

  /** Each op runs after every sibling it reads. */
  ghost predicate InOrder(g: Graph, r: nat, order: seq<nat>)
  {
    forall k: nat, producer: nat | k < |order| && ReadsOp(g, r, order[k], producer) :: producer in order[..k]
  }

  /** The state of a run: what was started, what was completed in which order, and what is in progress. */
  ghost predicate Running(g: Graph, r: nat, evaluated: set<nat>, order: seq<nat>, stack: seq<nat>)
  {
    && Distinct(order) && Chain(g, r, stack)
    && (forall op: nat :: op in evaluated <==> op in order || op in stack)
    && (forall op: nat | op in order :: op !in stack)
    && (NoCycle(g, r) ==> InOrder(g, r, order))
  }

  /** What was started between two points, for the value `v`: all of it needed, and nothing it reads left out. */
  ghost predicate Ran(g: Graph, r: nat, v: nat, before: set<nat>, after: set<nat>)
  {
    && before <= after && Has(g, r, after, v)
    && (forall op: nat, producer: nat | op in after && op !in before && ReadsOp(g, r, op, producer) :: producer in after)
    && (forall t: set<nat>, op: nat | Closed(g, r, t) && Has(g, r, t, v) && op in after && op !in before :: op in t)
  }

  /** The same for several values. */
  ghost predicate RanAll(g: Graph, r: nat, values: seq<nat>, before: set<nat>, after: set<nat>)
  {
    && before <= after && (forall v | v in values :: Has(g, r, after, v))
    && (forall op: nat, producer: nat | op in after && op !in before && ReadsOp(g, r, op, producer) :: producer in after)
    && (forall t: set<nat>, op: nat | Closed(g, r, t) && (forall v | v in values :: Has(g, r, t, v)) && op in after && op !in before :: op in t)
  }

  lemma {:induction false} RanMore(g: Graph, r: nat, values: seq<nat>, n: nat, before: set<nat>, mid: set<nat>, after: set<nat>)
    requires n < |values| && RanAll(g, r, values[..n], before, mid) && Ran(g, r, values[n], mid, after)
    ensures RanAll(g, r, values[..n + 1], before, after)
  {
    assert values[..n + 1] == values[..n] + [values[n]];
    forall t: set<nat>, op: nat | Closed(g, r, t) && (forall v | v in values[..n + 1] :: Has(g, r, t, v)) && op in after && op !in before
      ensures op in t
    {
      assert values[n] in values[..n + 1];
      assert forall v | v in values[..n] :: v in values[..n + 1];
    }
  }

  /** An op whose reads were all run was run for its value. */
  lemma {:induction false} RanOp(g: Graph, r: nat, v: nat, before: set<nat>, after: set<nat>)
    requires Producer(g, r, v).Some?
    requires RanAll(g, r, ValuesRead(g, Producer(g, r, v).value), before + {Producer(g, r, v).value}, after)
    ensures Ran(g, r, v, before, after)
  {
  }

  /** Reading an op in progress closes a cycle. */
  lemma {:induction false} ClosesCycle(g: Graph, r: nat, stack: seq<nat>, v: nat)
    requires Chain(g, r, stack) && stack != [] && v in ValuesRead(g, stack[|stack| - 1])
    requires Producer(g, r, v).Some? && Producer(g, r, v).value in stack
    ensures !NoCycle(g, r)
  {
    var i: nat :| i < |stack| && stack[i] == Producer(g, r, v).value;
    var cycle := stack[i..];
    assert ReadsOp(g, r, cycle[|cycle| - 1], cycle[0]);
    assert IsCycle(g, r, cycle);
  }

  /** A started op joins what is in progress. */
  lemma {:induction false} Starts(g: Graph, r: nat, v: nat, evaluated: set<nat>, order: seq<nat>, stack: seq<nat>)
    requires Running(g, r, evaluated, order, stack) && (stack != [] ==> v in ValuesRead(g, stack[|stack| - 1]))
    requires Producer(g, r, v).Some? && Producer(g, r, v).value !in evaluated
    ensures Running(g, r, evaluated + {Producer(g, r, v).value}, order, stack + [Producer(g, r, v).value])
  {
  }

  /** An op completes after everything it reads. */
  lemma {:induction false} Completes(g: Graph, r: nat, evaluated: set<nat>, order: seq<nat>, stack: seq<nat>, op: nat)
    requires Running(g, r, evaluated, order, stack + [op]) && op !in stack
    requires NoCycle(g, r) ==> forall v | v in ValuesRead(g, op) && Producer(g, r, v).Some? :: Producer(g, r, v).value in order
    ensures Running(g, r, evaluated, order + [op], stack)
  {
    assert forall i: nat | i < |stack| :: (stack + [op])[i] == stack[i];
    assert Chain(g, r, stack);
    assert op in stack + [op];
    if NoCycle(g, r) {
      CompletesInOrder(g, r, order, op);
    }
  }

  lemma {:induction false} CompletesInOrder(g: Graph, r: nat, order: seq<nat>, op: nat)
    requires InOrder(g, r, order)
    requires forall v | v in ValuesRead(g, op) && Producer(g, r, v).Some? :: Producer(g, r, v).value in order
    ensures InOrder(g, r, order + [op])
  {
    forall k: nat, producer: nat | k < |order + [op]| && ReadsOp(g, r, (order + [op])[k], producer)
      ensures producer in (order + [op])[..k]
    {
      assert (order + [op])[..k] == order[..k];
      assert k == |order| ==> order[..k] == order;
      var v: nat :| Reads(g, (order + [op])[k], v) && Defines(g, r, producer, v);
      assert Producer(g, r, v) == Some(producer);
    }
  }

  /** Runs the op that defines `v`, if it is in the region and was not started yet. */
  method DemandValue(g: Graph, r: nat, v: nat, evaluated0: set<nat>, order0: seq<nat>, ghost stack: seq<nat>)
    returns (evaluated: set<nat>, order: seq<nat>)
    requires Running(g, r, evaluated0, order0, stack) && evaluated0 <= OpsIn(g, r)
    requires stack != [] ==> v in ValuesRead(g, stack[|stack| - 1])
    ensures Running(g, r, evaluated, order, stack) && evaluated <= OpsIn(g, r)
    ensures Ran(g, r, v, evaluated0, evaluated)
    ensures order0 <= order
    ensures NoCycle(g, r) && Producer(g, r, v).Some? ==> Producer(g, r, v).value in order
    decreases OpsIn(g, r) - evaluated0, 0
  {
    evaluated, order := evaluated0, order0;
    var p := Producer(g, r, v);
    if p.None? || p.value in evaluated {
      if p.Some? && p.value in stack {
        ClosesCycle(g, r, stack, v);
      }
      return;
    }
    var op := p.value;
    Starts(g, r, v, evaluated, order, stack);
    evaluated := evaluated + {op};
    evaluated, order := DemandAll(g, r, ValuesRead(g, op), evaluated, order, stack + [op]);
    RanOp(g, r, v, evaluated0, evaluated);
    Completes(g, r, evaluated, order, stack, op);
    order := order + [op];
  }

  lemma {:induction false} FewerLeft(all: set<nat>, before: set<nat>, after: set<nat>)
    requires before <= after <= all
    ensures all - after == all - before || all - after < all - before
  {
  }

  ghost predicate AllIn(g: Graph, r: nat, values: seq<nat>, order: seq<nat>)
  {
    forall v | v in values && Producer(g, r, v).Some? :: Producer(g, r, v).value in order
  }

  method DemandAll(g: Graph, r: nat, values: seq<nat>, evaluated0: set<nat>, order0: seq<nat>, ghost stack: seq<nat>)
    returns (evaluated: set<nat>, order: seq<nat>)
    requires Running(g, r, evaluated0, order0, stack) && evaluated0 <= OpsIn(g, r)
    requires stack != [] ==> forall v | v in values :: v in ValuesRead(g, stack[|stack| - 1])
    ensures Running(g, r, evaluated, order, stack) && evaluated <= OpsIn(g, r)
    ensures RanAll(g, r, values, evaluated0, evaluated)
    ensures order0 <= order
    ensures NoCycle(g, r) ==> AllIn(g, r, values, order)
    decreases OpsIn(g, r) - evaluated0, 1
  {
    evaluated, order := evaluated0, order0;
    for i := 0 to |values|
      invariant Running(g, r, evaluated, order, stack) && evaluated <= OpsIn(g, r)
      invariant RanAll(g, r, values[..i], evaluated0, evaluated)
      invariant order0 <= order
      invariant NoCycle(g, r) ==> AllIn(g, r, values[..i], order)
    {
      ghost var before := evaluated;
      FewerLeft(OpsIn(g, r), evaluated0, evaluated);
      assert values[i] in values;
      evaluated, order := DemandValue(g, r, values[i], evaluated, order, stack);
      RanMore(g, r, values, i, evaluated0, before, evaluated);
      TakeOneMore(values, i);
    }
    assert values[..|values|] == values;
  }

  /** Runs an unordered region for its results: exactly what they need, each op once. */
  method ExecNodesRegion(g: Graph, r: nat, results: seq<nat>) returns (order: seq<nat>)
    ensures Distinct(order) && IsCone(g, r, (set v | v in results), (set op | op in order))
    ensures NoCycle(g, r) ==> InOrder(g, r, order)
    ensures forall op | op in order :: op in g.home && g.home[op] == r
  {
    var evaluated: set<nat> := {};
    evaluated, order := DemandAll(g, r, results, {}, [], []);
    RanIsCone(g, r, results, evaluated);
    assert evaluated == (set op | op in order);
  }

  lemma {:induction false} RanIsCone(g: Graph, r: nat, values: seq<nat>, s: set<nat>)
    requires RanAll(g, r, values, {}, s)
    ensures IsCone(g, r, (set v | v in values), s)
  {
  }

  /** What values need is in their region. */
  lemma {:induction false} ConeInside(g: Graph, r: nat, values: set<nat>, s: set<nat>)
    requires IsCone(g, r, values, s)
    ensures s <= OpsIn(g, r)
  {
    assert Closed(g, r, OpsIn(g, r)) && HasAll(g, r, OpsIn(g, r), values);
  }
}
