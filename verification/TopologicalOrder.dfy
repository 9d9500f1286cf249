/**
  Ordering the operations of an unordered region: Kahn's algorithm over the
  sibling reads, always taking the least ready id, and the cycle it reports
  when there is no order.
 */
module TopologicalOrder {
  import opened Seqs

  type OpId = nat

  /** The sibling reads: for each reader, its producers, none twice. */
  type Reads = map<OpId, seq<OpId>>

  function Of(rel: Reads, op: OpId): seq<OpId> { if op in rel then rel[op] else [] }

  ghost function ReadersOf(rel: Reads, op: OpId): set<OpId> { set reader | reader in rel && op in rel[reader] }

  /** The reads relate operations of the region. */
  ghost predicate Over(ops: set<OpId>, rel: Reads)
  {
    forall op | op in rel :: op in ops && Distinct(rel[op]) && forall p | p in rel[op] :: p in ops
  }

  ghost predicate Met(producers: seq<OpId>, done: set<OpId>) { forall p | p in producers :: p in done }

  // ----- What an order and a cycle are.

  /** Every operation once, producers before their readers. */
  ghost predicate IsOrder(ops: set<OpId>, rel: Reads, order: seq<OpId>)
  {
    && Distinct(order) && Elements(order) == ops
    && forall k | 0 <= k < |order| :: Met(Of(rel, order[k]), Elements(order[..k]))
  }

  ghost predicate LexLeq(a: seq<OpId>, b: seq<OpId>)
  {
    a == b || exists k :: 0 <= k < |a| && k < |b| && a[..k] == b[..k] && a[k] < b[k]
  }

  /** Each member reads the next and the last reads the first. */
  ghost predicate IsCycle(rel: Reads, cycle: seq<OpId>)
  {
    && cycle != []
    && (forall i | 0 <= i < |cycle| - 1 :: cycle[i + 1] in Of(rel, cycle[i]))
    && cycle[0] in Of(rel, cycle[|cycle| - 1])
  }

  ghost predicate Acyclic(rel: Reads) { forall cycle :: !IsCycle(rel, cycle) }

  // ----- Kahn's loop.

  ghost predicate Ready(ops: set<OpId>, rel: Reads, done: set<OpId>, op: OpId)
  {
    op in ops && op !in done && Met(Of(rel, op), done)
  }

  /** Each choice is the least operation ready at its turn. */
  ghost predicate Greedy(ops: set<OpId>, rel: Reads, order: seq<OpId>)
  {
    forall k | 0 <= k < |order| ::
      && Ready(ops, rel, Elements(order[..k]), order[k])
      && forall op :: Ready(ops, rel, Elements(order[..k]), op) ==> order[k] <= op
  }

  /** How many of the producers are not done. */
  ghost function Waiting(producers: seq<OpId>, done: set<OpId>): nat
  {
    if producers == [] then 0 else (if producers[0] in done then 0 else 1) + Waiting(producers[1..], done)
  }

  /** How many producers each operation still waits for. */
  ghost function Counts(ops: set<OpId>, rel: Reads, done: set<OpId>): map<OpId, nat>
  {
    map op | op in ops :: Waiting(Of(rel, op), done)
  }

  datatype Outcome = Ordered(order: seq<OpId>) | Cyclic(member: OpId)

  method Minimum(s: set<OpId>) returns (m: OpId)
    requires s != {}
    ensures m in s && forall x | x in s :: m <= x
  {
    m :| m in s;
    var rest := s - {m};
    while rest != {}
      invariant m in s && rest <= s && forall x | x in s :: x in rest || m <= x
      decreases rest
    {
      var x :| x in rest;
      rest := rest - {x};
      if x < m {
        m := x;
      }
    }
  }

  method Count(ops: set<OpId>, rel: Reads) returns (pending: map<OpId, nat>, readers: map<OpId, set<OpId>>)
    requires Over(ops, rel)
    ensures pending == map op | op in ops :: |Of(rel, op)|
    ensures readers.Keys == ops && forall p, x {:trigger x in readers[p]} | p in ops :: x in readers[p] <==> x in ReadersOf(rel, p)
  {
    pending := map[];
    readers := map p | p in ops :: {};
    var todo := ops;
    while todo != {}
      invariant todo <= ops && pending.Keys == ops - todo && readers.Keys == ops
      invariant forall op | op in pending :: pending[op] == |Of(rel, op)|
      invariant forall p, x {:trigger x in readers[p]} | p in ops :: x in readers[p] <==> x in ReadersOf(rel, p) && x !in todo
      decreases todo
    {
      var op :| op in todo;
      var producers := Of(rel, op);
      readers := map p | p in ops :: if p in producers then readers[p] + {op} else readers[p];
      pending := pending[op := |producers|];
      todo := todo - {op};
    }
  }

  /** Taking `op` lowers the count of exactly its readers, by one. */
  lemma {:induction false} WaitingStep(producers: seq<OpId>, done: set<OpId>, op: OpId)
    requires op !in done && Distinct(producers)
    ensures Waiting(producers, done) == Waiting(producers, done + {op}) + if op in producers then 1 else 0
  {
    if producers != [] {
      WaitingStep(producers[1..], done, op);
      assert producers == [producers[0]] + producers[1..];
    }
  }

  lemma {:induction false} WaitingZero(producers: seq<OpId>, done: set<OpId>)
    ensures Met(producers, done) <==> Waiting(producers, done) == 0
  {
    if producers != [] {
      WaitingZero(producers[1..], done);
      assert producers == [producers[0]] + producers[1..];
    }
  }

  lemma {:induction false} WaitingAll(producers: seq<OpId>)
    ensures Waiting(producers, {}) == |producers|
  {
    if producers != [] {
      WaitingAll(producers[1..]);
    }
  }

  /** Lower the counts of the readers of a taken operation, and add those whose count reaches zero. */
  method Release(rs: set<OpId>, pending0: map<OpId, nat>, ready0: set<OpId>, ghost after: map<OpId, nat>)
    returns (pending: map<OpId, nat>, ready: set<OpId>)
    requires rs <= pending0.Keys == after.Keys
    requires forall x | x in after :: pending0[x] == after[x] + if x in rs then 1 else 0
    ensures pending == after
    ensures forall x :: x in ready <==> x in ready0 || (x in rs && after[x] == 0)
  {
    pending, ready := pending0, ready0;
    var todo := rs;
    while todo != {}
      invariant todo <= rs && pending.Keys == after.Keys
      invariant forall x | x in after :: pending[x] == after[x] + if x in todo then 1 else 0
      invariant forall x :: x in ready <==> x in ready0 || (x in rs && x !in todo && after[x] == 0)
      decreases todo
    {
      var reader :| reader in todo;
      todo := todo - {reader};
      pending := pending[reader := pending[reader] - 1];
      if pending[reader] == 0 {
        ready := ready + {reader};
      }
    }
  }

  lemma ReadyStep(ops: set<OpId>, rel: Reads, done: set<OpId>, op: OpId, ready: set<OpId>)
    requires Ready(ops, rel, done, op) && forall x | x in done :: Met(Of(rel, x), done)
    requires forall x :: x in ready <==> (Ready(ops, rel, done, x) && x != op) || (x in ReadersOf(rel, op) && x in ops && Met(Of(rel, x), done + {op}))
    ensures forall x :: x in ready <==> Ready(ops, rel, done + {op}, x)
  {
  }

  // ----- The order.

  /** What holds between two choices. */
  ghost predicate Kahn(ops: set<OpId>, rel: Reads, order: seq<OpId>, pending: map<OpId, nat>, ready: set<OpId>)
  {
    var done := Elements(order);
    && done <= ops && Distinct(order) && Greedy(ops, rel, order)
    && (forall x | x in done :: Met(Of(rel, x), done))
    && pending == Counts(ops, rel, done)
    && (forall x :: x in ready <==> Ready(ops, rel, done, x))
  }

  /** The operations in dependency order, least id first among those ready. */
  method Order(ops: set<OpId>, rel: Reads) returns (order: seq<OpId>, pending: map<OpId, nat>)
    requires Over(ops, rel)
    ensures Kahn(ops, rel, order, pending, {})
  {
    var readers;
    pending, readers := Count(ops, rel);
    NothingDone(ops, rel);
    CountsZero(ops, rel, {});
    var ready := set op | op in pending && pending[op] == 0;
    order := [];
    assert Elements(order) == {};
    while ready != {}
      invariant Kahn(ops, rel, order, pending, ready)
      decreases ops - Elements(order)
    {
      ghost var before := order;
      order, pending, ready := Choose(ops, rel, readers, order, pending, ready);
      assert order[|before|] in Elements(order);
    }
  }

  /** Takes the least ready operation and releases its readers. */
  method Choose(ghost ops: set<OpId>, ghost rel: Reads, readers: map<OpId, set<OpId>>, order0: seq<OpId>, pending0: map<OpId, nat>, ready0: set<OpId>)
    returns (order: seq<OpId>, pending: map<OpId, nat>, ready: set<OpId>)
    requires Over(ops, rel) && Kahn(ops, rel, order0, pending0, ready0) && ready0 != {}
    requires readers.Keys == ops && forall op | op in ops :: readers[op] == ReadersOf(rel, op)
    ensures Kahn(ops, rel, order, pending, ready)
    ensures |order| == |order0| + 1 && order[..|order0|] == order0 && order[|order0|] !in Elements(order0)
    ensures Elements(order) == Elements(order0) + {order[|order0|]}
  {
    var op := Minimum(ready0);
    ghost var done := Elements(order0);
    CountsStep(ops, rel, done, op);
    pending, ready := Release(readers[op], pending0, ready0 - {op}, Counts(ops, rel, done + {op}));
    KahnStep(ops, rel, order0, op, ready0, ready);
    order := order0 + [op];
  }

  lemma {:induction false} KahnStep(ops: set<OpId>, rel: Reads, order: seq<OpId>, op: OpId, ready0: set<OpId>, ready: set<OpId>)
    requires Over(ops, rel) && Kahn(ops, rel, order, Counts(ops, rel, Elements(order)), ready0)
    requires op in ready0 && forall x | x in ready0 :: op <= x
    requires var after := Counts(ops, rel, Elements(order) + {op});
             forall x :: x in ready <==> (x in ready0 && x != op) || (x in ReadersOf(rel, op) && x in after && after[x] == 0)
    ensures Kahn(ops, rel, order + [op], Counts(ops, rel, Elements(order) + {op}), ready)
    ensures Elements(order + [op]) == Elements(order) + {op}
  {
    var done := Elements(order);
    assert Elements(order + [op]) == done + {op};
    GreedyPush(ops, rel, order, op);
    CountsZero(ops, rel, done + {op});
    ReadyStep(ops, rel, done, op, ready);
  }

  lemma {:induction false} NothingDone(ops: set<OpId>, rel: Reads)
    ensures Counts(ops, rel, {}) == map op | op in ops :: |Of(rel, op)|
  {
    forall op | op in ops
      ensures Waiting(Of(rel, op), {}) == |Of(rel, op)|
    {
      WaitingAll(Of(rel, op));
    }
  }

  lemma {:induction false} CountsZero(ops: set<OpId>, rel: Reads, done: set<OpId>)
    ensures forall op | op in ops :: Counts(ops, rel, done)[op] == 0 <==> Met(Of(rel, op), done)
  {
    forall op | op in ops
      ensures Counts(ops, rel, done)[op] == 0 <==> Met(Of(rel, op), done)
    {
      WaitingZero(Of(rel, op), done);
    }
  }

  lemma {:induction false} CountsStep(ops: set<OpId>, rel: Reads, done: set<OpId>, op: OpId)
    requires op !in done && Over(ops, rel)
    ensures forall x | x in ops ::
              Counts(ops, rel, done)[x] == Counts(ops, rel, done + {op})[x] + if x in ReadersOf(rel, op) then 1 else 0
  {
    forall x | x in ops
      ensures Counts(ops, rel, done)[x] == Counts(ops, rel, done + {op})[x] + if x in ReadersOf(rel, op) then 1 else 0
    {
      WaitingStep(Of(rel, x), done, op);
    }
  }

  lemma GreedyPush(ops: set<OpId>, rel: Reads, order: seq<OpId>, op: OpId)
    requires Greedy(ops, rel, order) && Ready(ops, rel, Elements(order), op)
    requires forall x :: Ready(ops, rel, Elements(order), x) ==> op <= x
    ensures Greedy(ops, rel, order + [op])
  {
    var next := order + [op];
    forall k | 0 <= k < |next|
      ensures Ready(ops, rel, Elements(next[..k]), next[k])
      ensures forall x :: Ready(ops, rel, Elements(next[..k]), x) ==> next[k] <= x
    {
      if k < |order| {
        assert next[..k] == order[..k];
      } else {
        assert next[..k] == order;
      }
    }
  }

  /** No other order is lexicographically smaller than a greedy one. */
  lemma {:induction false} GreedyIsLeast(ops: set<OpId>, rel: Reads, order: seq<OpId>, other: seq<OpId>, k: nat)
    requires IsOrder(ops, rel, order) && Greedy(ops, rel, order) && IsOrder(ops, rel, other)
    requires k <= |order| == |other| && order[..k] == other[..k]
    ensures LexLeq(order, other)
    decreases |order| - k
  {
    if k == |order| {
      assert order == order[..k] && other == other[..k];
    } else if order[k] == other[k] {
      assert order[..k + 1] == order[..k] + [order[k]] && other[..k + 1] == other[..k] + [other[k]];
      GreedyIsLeast(ops, rel, order, other, k + 1);
    } else {
      assert other[k] in Elements(other);
      assert other[k] !in Elements(other[..k]);
      assert Ready(ops, rel, Elements(order[..k]), other[k]);
    }
  }

  lemma {:induction false} DistinctSize(s: seq<OpId>)
    requires Distinct(s)
    ensures |Elements(s)| == |s|
  {
    if s != [] {
      DistinctSize(s[1..]);
      assert Elements(s) == {s[0]} + Elements(s[1..]);
    }
  }

  /** Where there is an order there is no cycle: the member placed last would read a later one. */
  lemma {:induction false} OrderHasNoCycle(ops: set<OpId>, rel: Reads, order: seq<OpId>, cycle: seq<OpId>)
    requires IsOrder(ops, rel, order) && Over(ops, rel)
    ensures !IsCycle(rel, cycle)
  {
    if IsCycle(rel, cycle) {
      var at := |cycle| - 1;
      assert cycle[0] in ops;
      var last :| 0 <= last < |order| && order[last] == cycle[0];
      EarlierAndEarlier(ops, rel, order, cycle, 0, last);
    }
  }

  lemma {:induction false} EarlierAndEarlier(ops: set<OpId>, rel: Reads, order: seq<OpId>, cycle: seq<OpId>, i: nat, at: nat)
    requires IsOrder(ops, rel, order) && IsCycle(rel, cycle) && i < |cycle| && at < |order| && order[at] == cycle[i]
    ensures false
    decreases at
  {
    var j := if i + 1 < |cycle| then i + 1 else 0;
    assert cycle[j] in Of(rel, order[at]);
    var before :| 0 <= before < at && order[..at][before] == cycle[j];
    EarlierAndEarlier(ops, rel, order, cycle, j, before);
  }

  // ----- The cycle.

  method IndexOf(path: seq<OpId>, op: OpId) returns (from: nat)
    ensures from <= |path|
    ensures from < |path| ==> path[from] == op
    ensures from == |path| ==> op !in path
  {
    from := 0;
    while from < |path| && path[from] != op
      invariant from <= |path| && op !in path[..from]
    {
      assert path[..from + 1] == path[..from] + [path[from]];
      from := from + 1;
    }
    assert path[..|path|] == path;
  }

  ghost predicate ReadsBlocked(rel: Reads, blocked: set<OpId>, op: OpId) { exists p :: p in Of(rel, op) && p in blocked }

  /** Every blocked operation reads a blocked one. */
  ghost predicate Stuck(rel: Reads, blocked: set<OpId>)
  {
    blocked != {} && forall op {:trigger ReadsBlocked(rel, blocked, op)} | op in blocked :: ReadsBlocked(rel, blocked, op)
  }

  /** The least blocked producer of a blocked operation. */
  method NextBlocked(rel: Reads, blocked: set<OpId>, op: OpId) returns (next: OpId)
    requires Stuck(rel, blocked) && op in blocked
    ensures next in Of(rel, op) && next in blocked
    ensures forall p | p in Of(rel, op) && p in blocked :: next <= p
  {
    var inputs := set p | p in Of(rel, op) && p in blocked;
    assert ReadsBlocked(rel, blocked, op);
    var p :| p in Of(rel, op) && p in blocked;
    assert p in inputs;
    next := Minimum(inputs);
    assert forall p | p in Of(rel, op) && p in blocked :: p in inputs;
  }

  /** Walk from the least operation left pending to least pending producers until one comes round again. */
  method CycleMember(rel: Reads, blocked: set<OpId>) returns (member: OpId, ghost cycle: seq<OpId>)
    requires Stuck(rel, blocked)
    ensures IsCycle(rel, cycle) && member in cycle && forall op | op in cycle :: member <= op
  {
    var start := Minimum(blocked);
    var path := [start];
    while true
      invariant path != [] && Distinct(path) && Elements(path) <= blocked
      invariant forall i | 0 <= i < |path| - 1 :: path[i + 1] in Of(rel, path[i])
      decreases blocked - Elements(path)
    {
      var last := path[|path| - 1];
      assert last in Elements(path);
      var next := NextBlocked(rel, blocked, last);
      var from := IndexOf(path, next);
      if from < |path| {
        cycle := path[from..];
        assert cycle[|cycle| - 1] == last && cycle[0] == next;
        var members := set op | op in path[from..];
        assert next in members;
        member := Minimum(members);
        assert forall op | op in cycle :: op in members;
        return;
      }
      assert Elements(path + [next]) == Elements(path) + {next};
      path := path + [next];
    }
  }

  /** Kahn's algorithm: the least order there is, or a member of a cycle there is. */
  method TopologicalOrder(ops: set<OpId>, rel: Reads) returns (r: Outcome)
    requires Over(ops, rel)
    ensures r.Ordered? <==> Acyclic(rel)
    ensures r.Ordered? ==> IsOrder(ops, rel, r.order) && forall other | IsOrder(ops, rel, other) :: LexLeq(r.order, other)
    ensures r.Cyclic? ==> exists cycle :: IsCycle(rel, cycle) && r.member in cycle
  {
    var order, pending := Order(ops, rel);
    DistinctSize(order);
    if |order| == |ops| {
      SameSize(Elements(order), ops);
      assert IsOrder(ops, rel, order);
      forall other | IsOrder(ops, rel, other)
        ensures LexLeq(order, other)
      {
        DistinctSize(other);
        GreedyIsLeast(ops, rel, order, other, 0);
      }
      forall cycle
        ensures !IsCycle(rel, cycle)
      {
        OrderHasNoCycle(ops, rel, order, cycle);
      }
      return Ordered(order);
    }
    LeftPending(ops, rel, order, pending);
    var member, cycle := CycleMember(rel, set op | op in pending && pending[op] > 0);
    return Cyclic(member);
  }

  lemma SameSize(a: set<OpId>, b: set<OpId>)
    requires a <= b && |a| == |b|
    ensures a == b
  {
    assert b == a + (b - a);
  }

  /** An operation left out waits for one that is left out too. */
  lemma {:induction false} LeftPending(ops: set<OpId>, rel: Reads, order: seq<OpId>, pending: map<OpId, nat>)
    requires Over(ops, rel) && Kahn(ops, rel, order, pending, {}) && |order| != |ops|
    ensures Stuck(rel, set op | op in pending && pending[op] > 0)
  {
    var blocked := set op | op in pending && pending[op] > 0;
    var left := SomeLeft(ops, rel, order, pending);
    assert left in blocked;
    forall op {:trigger ReadsBlocked(rel, blocked, op)} | op in blocked
      ensures ReadsBlocked(rel, blocked, op)
    {
      var p := LeftReads(ops, rel, order, pending, op);
      assert p in blocked;
    }
  }

  lemma {:induction false} SomeLeft(ops: set<OpId>, rel: Reads, order: seq<OpId>, pending: map<OpId, nat>) returns (left: OpId)
    requires Kahn(ops, rel, order, pending, {}) && |order| != |ops|
    ensures left in pending && pending[left] > 0
  {
    DistinctSize(order);
    assert Elements(order) != ops;
    left :| left in ops && left !in Elements(order);
    LeftOut(ops, rel, order, pending, left);
  }

  lemma {:induction false} LeftReads(ops: set<OpId>, rel: Reads, order: seq<OpId>, pending: map<OpId, nat>, op: OpId) returns (p: OpId)
    requires Over(ops, rel) && Kahn(ops, rel, order, pending, {}) && op in pending && pending[op] > 0
    ensures p in Of(rel, op) && p in pending && pending[p] > 0
  {
    WaitingZero(Of(rel, op), Elements(order));
    p :| p in Of(rel, op) && p !in Elements(order);
    LeftOut(ops, rel, order, pending, p);
  }

  lemma {:induction false} LeftOut(ops: set<OpId>, rel: Reads, order: seq<OpId>, pending: map<OpId, nat>, op: OpId)
    requires Kahn(ops, rel, order, pending, {}) && op in ops && op !in Elements(order)
    ensures pending[op] > 0
  {
    WaitingZero(Of(rel, op), Elements(order));
    assert !Ready(ops, rel, Elements(order), op);
  }
}
