/**
  Every verified region without cyclic reads can be copied: ordering the ops of
  each region, at every depth, makes it one whose copy is a renaming.
 */
module CloneSorted {
  import opened Seqs
  import opened Clone
  import opened CloneRegions
  import opened CloneOrder
  import T = TopologicalOrder

  // ----- What the verifier asks of a region, whatever the order of its ops.

  ghost predicate ApartOps(ops: seq<Op>) { forall i: nat, j: nat | i < j < |ops| :: DefsOfOp(ops[i]) !! DefsOfOp(ops[j]) }

  ghost predicate ApartRegions(rs: seq<Region>)
  {
    forall i: nat, j: nat | i < j < |rs| :: DefsOfRegion(rs[i]) !! DefsOfRegion(rs[j])
  }

  /** Every value is defined once, and references name an enclosing port, a result beside or around, or something outside. */
  ghost predicate Verified(r: Region, b: Bounds, visible: set<nat>)
    decreases r
  {
    var inside := visible + Elements(r.ports) + ResultsOf(r.ops);
    && Distinct(r.ports) && Elements(r.ports) !! DefsOfOps(r.ops) && ApartOps(r.ops)
    && OkRefs(b, inside, r.results) && forall i: nat | i < |r.ops| :: VerifiedOp(r.ops[i], b, inside)
  }

  ghost predicate VerifiedOp(op: Op, b: Bounds, visible: set<nat>)
    decreases op
  {
    && Distinct(op.results) && Elements(op.results) !! DefsOfRegions(op.regions) && ApartRegions(op.regions)
    && OkRefs(b, visible, op.operands) && forall i: nat | i < |op.regions| :: Verified(op.regions[i], b, visible)
  }

  /** At every depth, each op names only results of ops before it. */
  ghost predicate Sorted(r: Region)
    decreases r
  {
    Ordered(r.ops, {}, ResultsOf(r.ops)) && forall i: nat | i < |r.ops| :: SortedOp(r.ops[i])
  }

  ghost predicate SortedOp(op: Op)
    decreases op
  {
    forall i: nat | i < |op.regions| :: Sorted(op.regions[i])
  }

  // ----- Sorted and verified is well scoped.

  lemma {:induction false} OrderedUnder(ops: seq<Op>, narrow: set<nat>, wide: set<nat>, visible: set<nat>)
    requires Ordered(ops, narrow, wide)
    ensures Ordered(ops, visible + narrow, visible + wide)
    decreases |ops|
  {
    if ops != [] {
      var made := Elements(ops[0].results);
      OrderedUnder(ops[1..], narrow + made, wide, visible);
      assert visible + (narrow + made) == visible + narrow + made;
    }
  }

  lemma {:induction false} SortedIsGood(r: Region, b: Bounds, seen: set<nat>, visible: set<nat>)
    requires Verified(r, b, visible) && Sorted(r) && DefsOfRegion(r) <= b.all && DefsOfRegion(r) !! seen
    ensures GoodRegion(r, b, seen, visible)
    decreases r, 0
  {
    var ports, made := Elements(r.ports), ResultsOf(r.ops);
    assert forall v | v in r.ports :: v in ports;
    OpsAreLoose(r.ops, b, seen + ports, visible + ports + made);
    OrderedUnder(r.ops, {}, made, visible + ports);
    assert visible + ports + {} == visible + ports;
    OrderedIsGood(r.ops, b, seen + ports, visible + ports, visible + ports + made, r.results);
  }

  lemma {:induction false} RestApart(ops: seq<Op>)
    requires ops != [] && ApartOps(ops)
    ensures ApartOps(ops[1..]) && DefsOfOp(ops[0]) !! DefsOfOps(ops[1..])
  {
    var rest := ops[1..];
    DefsMembers(rest);
    assert forall i: nat | i < |rest| :: rest[i] == ops[i + 1];
  }

  lemma {:induction false} OpsAreLoose(ops: seq<Op>, b: Bounds, seen: set<nat>, wide: set<nat>)
    requires ApartOps(ops) && DefsOfOps(ops) <= b.all && DefsOfOps(ops) !! seen
    requires forall i: nat | i < |ops| :: VerifiedOp(ops[i], b, wide) && SortedOp(ops[i])
    ensures LooseOps(ops, b, seen, wide)
    decreases ops, 0
  {
    if ops != [] {
      RestApart(ops);
      OpIsGood(ops[0], b, seen, wide);
      OpsAreLoose(ops[1..], b, seen + DefsOfOp(ops[0]), wide);
    }
  }

  lemma {:induction false} OpIsGood(op: Op, b: Bounds, seen: set<nat>, visible: set<nat>)
    requires VerifiedOp(op, b, visible) && SortedOp(op) && DefsOfOp(op) <= b.all && DefsOfOp(op) !! seen
    ensures GoodOp(op, b, seen, visible)
    decreases op, 0
  {
    assert forall v | v in op.results :: v in Elements(op.results);
    RegionsAreGood(op.regions, b, seen, visible);
  }

  lemma {:induction false} RegionsAreGood(rs: seq<Region>, b: Bounds, seen: set<nat>, visible: set<nat>)
    requires ApartRegions(rs) && DefsOfRegions(rs) <= b.all && DefsOfRegions(rs) !! seen
    requires forall i: nat | i < |rs| :: Verified(rs[i], b, visible) && Sorted(rs[i])
    ensures GoodRegions(rs, b, seen, visible)
    decreases rs, 0
  {
    if rs != [] {
      var rest := rs[1..];
      RegionDefsMembers(rest);
      assert forall i: nat | i < |rest| :: rest[i] == rs[i + 1];
      SortedIsGood(rs[0], b, seen, visible);
      RegionsAreGood(rest, b, seen + DefsOfRegion(rs[0]), visible);
    }
  }

  // ----- The definitions and names of a list, member by member.

  lemma {:induction false} DefsMembers(ops: seq<Op>)
    ensures forall v: nat :: v in DefsOfOps(ops) <==> exists i: nat :: i < |ops| && v in DefsOfOp(ops[i])
  {
    if ops != [] {
      DefsMembers(ops[1..]);
      forall v: nat
        ensures v in DefsOfOps(ops) <==> exists i: nat :: i < |ops| && v in DefsOfOp(ops[i])
      {
        if i: nat :| i < |ops| && v in DefsOfOp(ops[i]) {
          assert i > 0 ==> ops[1..][i - 1] == ops[i];
        }
        if i: nat :| i < |ops[1..]| && v in DefsOfOp(ops[1..][i]) {
          assert ops[1..][i] == ops[i + 1];
        }
      }
    }
  }

  lemma {:induction false} RegionDefsMembers(rs: seq<Region>)
    ensures forall v: nat :: v in DefsOfRegions(rs) <==> exists i: nat :: i < |rs| && v in DefsOfRegion(rs[i])
  {
    if rs != [] {
      RegionDefsMembers(rs[1..]);
      forall v: nat
        ensures v in DefsOfRegions(rs) <==> exists i: nat :: i < |rs| && v in DefsOfRegion(rs[i])
      {
        if i: nat :| i < |rs| && v in DefsOfRegion(rs[i]) {
          assert i > 0 ==> rs[1..][i - 1] == rs[i];
        }
        if i: nat :| i < |rs[1..]| && v in DefsOfRegion(rs[1..][i]) {
          assert rs[1..][i] == rs[i + 1];
        }
      }
    }
  }

  lemma {:induction false} NamesMembers(ops: seq<Op>)
    ensures forall v: nat :: v in NamesOfOps(ops) <==> exists i: nat :: i < |ops| && v in NamesOfOp(ops[i])
  {
    if ops != [] {
      NamesMembers(ops[1..]);
      forall v: nat
        ensures v in NamesOfOps(ops) <==> exists i: nat :: i < |ops| && v in NamesOfOp(ops[i])
      {
        if i: nat :| i < |ops| && v in NamesOfOp(ops[i]) {
          assert i > 0 ==> ops[1..][i - 1] == ops[i];
        }
        if i: nat :| i < |ops[1..]| && v in NamesOfOp(ops[1..][i]) {
          assert ops[1..][i] == ops[i + 1];
        }
      }
    }
  }

  // ----- Reordering keeps what is defined, what is named and what is verified.

  ghost predicate IsShuffle(p: seq<nat>, n: nat)
  {
    |p| == n && Distinct(p) && forall k: nat :: k in p <==> k < n
  }

  ghost predicate Shuffled(p: seq<nat>, ops: seq<Op>, others: seq<Op>)
    decreases ops, 0
  {
    && |p| == |ops| == |others| && IsShuffle(p, |ops|)
    && forall i: nat | i < |ops| :: p[i] < |ops| && SameOp(ops[p[i]], others[i])
  }

  /** The same region but for the order of the ops, here and at every depth. */
  ghost predicate SameRegion(r: Region, s: Region)
    decreases r, 0
  {
    s.ports == r.ports && s.results == r.results && exists p: seq<nat> :: Shuffled(p, r.ops, s.ops)
  }

  ghost predicate SameOp(op: Op, other: Op)
    decreases op, 0
  {
    && other.name == op.name && other.operands == op.operands && other.results == op.results
    && |other.regions| == |op.regions| && forall i: nat | i < |op.regions| :: SameRegion(op.regions[i], other.regions[i])
  }

  lemma {:induction false} SameRegionSets(r: Region, s: Region)
    requires SameRegion(r, s)
    ensures DefsOfRegion(s) == DefsOfRegion(r) && NamesOfRegion(s) == NamesOfRegion(r) && ResultsOf(s.ops) == ResultsOf(r.ops)
    decreases r, 0
  {
    var p: seq<nat> :| Shuffled(p, r.ops, s.ops);
    SameOpsSets(p, r.ops, s.ops);
  }

  /** What an op of one order gives, an op of the other gives. */
  lemma {:induction false} SameOpsSets(p: seq<nat>, ops: seq<Op>, others: seq<Op>)
    requires Shuffled(p, ops, others)
    ensures DefsOfOps(others) == DefsOfOps(ops) && NamesOfOps(others) == NamesOfOps(ops) && ResultsOf(others) == ResultsOf(ops)
    decreases ops, 1
  {
    forall i: nat | i < |ops|
      ensures DefsOfOp(others[i]) == DefsOfOp(ops[p[i]]) && NamesOfOp(others[i]) == NamesOfOp(ops[p[i]])
    {
      SameOpSets(ops[p[i]], others[i]);
    }
    DefsMove(p, ops, others);
    NamesMove(p, ops, others);
    ResultsMove(p, ops, others);
  }

  ghost predicate SameSets(p: seq<nat>, ops: seq<Op>, others: seq<Op>)
  {
    && |p| == |ops| == |others| && IsShuffle(p, |ops|)
    && forall i: nat | i < |ops| ::
         && p[i] < |ops| && DefsOfOp(others[i]) == DefsOfOp(ops[p[i]]) && NamesOfOp(others[i]) == NamesOfOp(ops[p[i]])
         && others[i].results == ops[p[i]].results
  }

  lemma {:induction false} DefsMove(p: seq<nat>, ops: seq<Op>, others: seq<Op>)
    requires SameSets(p, ops, others)
    ensures DefsOfOps(others) == DefsOfOps(ops)
  {
    DefsMembers(ops);
    DefsMembers(others);
    forall v: nat
      ensures v in DefsOfOps(others) <==> v in DefsOfOps(ops)
    {
      if i: nat :| i < |others| && v in DefsOfOp(others[i]) {
        assert v in DefsOfOp(ops[p[i]]);
      }
      if k: nat :| k < |ops| && v in DefsOfOp(ops[k]) {
        assert k in p;
        var i: nat :| i < |p| && p[i] == k;
        assert v in DefsOfOp(others[i]);
      }
    }
  }

  lemma {:induction false} NamesMove(p: seq<nat>, ops: seq<Op>, others: seq<Op>)
    requires SameSets(p, ops, others)
    ensures NamesOfOps(others) == NamesOfOps(ops)
  {
    NamesMembers(ops);
    NamesMembers(others);
    forall v: nat
      ensures v in NamesOfOps(others) <==> v in NamesOfOps(ops)
    {
      if i: nat :| i < |others| && v in NamesOfOp(others[i]) {
        assert v in NamesOfOp(ops[p[i]]);
      }
      if k: nat :| k < |ops| && v in NamesOfOp(ops[k]) {
        assert k in p;
        var i: nat :| i < |p| && p[i] == k;
        assert v in NamesOfOp(others[i]);
      }
    }
  }

  lemma {:induction false} ResultsMove(p: seq<nat>, ops: seq<Op>, others: seq<Op>)
    requires SameSets(p, ops, others)
    ensures ResultsOf(others) == ResultsOf(ops)
  {
    ResultsMembers(ops);
    ResultsMembers(others);
    forall v: nat
      ensures v in ResultsOf(others) <==> v in ResultsOf(ops)
    {
      if i: nat :| i < |others| && v in others[i].results {
        assert v in ops[p[i]].results;
      }
      if k: nat :| k < |ops| && v in ops[k].results {
        assert k in p;
        var i: nat :| i < |p| && p[i] == k;
        assert v in others[i].results;
      }
    }
  }

  lemma {:induction false} SameOpSets(op: Op, other: Op)
    requires SameOp(op, other)
    ensures DefsOfOp(other) == DefsOfOp(op) && NamesOfOp(other) == NamesOfOp(op)
    decreases op, 0
  {
    SameRegionsSets(op.regions, other.regions);
  }

  lemma {:induction false} SameRegionsSets(rs: seq<Region>, others: seq<Region>)
    requires |others| == |rs| && forall i: nat | i < |rs| :: SameRegion(rs[i], others[i])
    ensures DefsOfRegions(others) == DefsOfRegions(rs) && NamesOfRegions(others) == NamesOfRegions(rs)
    decreases rs, 0
  {
    if rs != [] {
      SameRegionSets(rs[0], others[0]);
      SameRegionsSets(rs[1..], others[1..]);
    }
  }

  lemma {:induction false} SameVerified(r: Region, s: Region, b: Bounds, visible: set<nat>)
    requires SameRegion(r, s) && Verified(r, b, visible)
    ensures Verified(s, b, visible)
    decreases r, 0
  {
    var p: seq<nat> :| Shuffled(p, r.ops, s.ops);
    SameRegionSets(r, s);
    SameApart(p, r.ops, s.ops);
    forall i: nat | i < |s.ops|
      ensures VerifiedOp(s.ops[i], b, visible + Elements(r.ports) + ResultsOf(r.ops))
    {
      SameVerifiedOp(r.ops[p[i]], s.ops[i], b, visible + Elements(r.ports) + ResultsOf(r.ops));
    }
    SameOpsSets(p, r.ops, s.ops);
  }

  lemma {:induction false} SameApart(p: seq<nat>, ops: seq<Op>, others: seq<Op>)
    requires Shuffled(p, ops, others) && ApartOps(ops)
    ensures ApartOps(others)
  {
    forall i: nat, j: nat | i < j < |ops|
      ensures DefsOfOp(others[i]) !! DefsOfOp(others[j])
    {
      SameOpSets(ops[p[i]], others[i]);
      SameOpSets(ops[p[j]], others[j]);
      assert p[i] != p[j];
    }
  }

  lemma {:induction false} SameVerifiedOp(op: Op, other: Op, b: Bounds, visible: set<nat>)
    requires SameOp(op, other) && VerifiedOp(op, b, visible)
    ensures VerifiedOp(other, b, visible)
    decreases op, 0
  {
    SameRegionsSets(op.regions, other.regions);
    forall i: nat | i < |op.regions|
      ensures Verified(other.regions[i], b, visible) && DefsOfRegion(other.regions[i]) == DefsOfRegion(op.regions[i])
    {
      SameVerified(op.regions[i], other.regions[i], b, visible);
      SameRegionSets(op.regions[i], other.regions[i]);
    }
  }

  // ----- Ordering every region.

  /** The ops among the first `k` whose results the op names, itself included. */
  function Reading(ops: seq<Op>, op: Op, k: nat): (r: seq<nat>)
    requires k <= |ops|
    ensures Distinct(r) && forall j: nat :: j in r <==> j < k && NamesOfOp(op) * Elements(ops[j].results) != {}
  {
    if k == 0 then []
    else Reading(ops, op, k - 1) + if NamesOfOp(op) * Elements(ops[k - 1].results) != {} then [k - 1] else []
  }

  /** The sibling reads of a region's ops, by place. */
  function ReadsOf(ops: seq<Op>): T.Reads
  {
    map i: nat | i < |ops| :: Reading(ops, ops[i], |ops|)
  }

  function ByPlace(ops: seq<Op>): map<nat, Op> { map i: nat | i < |ops| :: ops[i] }

  /** No region at any depth has ops that read each other in a circle. */
  ghost predicate Acyclic(r: Region)
    decreases r
  {
    T.Acyclic(ReadsOf(r.ops)) && forall i: nat | i < |r.ops| :: AcyclicOp(r.ops[i])
  }

  ghost predicate AcyclicOp(op: Op)
    decreases op
  {
    forall i: nat | i < |op.regions| :: Acyclic(op.regions[i])
  }

  lemma {:induction false} ReadsFit(ops: seq<Op>)
    ensures T.Over(ByPlace(ops).Keys, ReadsOf(ops)) && ReadsMatch(ByPlace(ops), ReadsOf(ops))
  {
    forall a: nat, b: nat, v: nat | a < |ops| && b < |ops| && v in NamesOfOp(ops[a]) && v in ops[b].results
      ensures b in T.Of(ReadsOf(ops), a)
    {
      assert v in NamesOfOp(ops[a]) * Elements(ops[b].results);
    }
  }

  lemma {:induction false} OrderShuffles(ops: seq<Op>, order: seq<nat>)
    requires T.IsOrder(ByPlace(ops).Keys, ReadsOf(ops), order)
    ensures IsShuffle(order, |ops|)
  {
    assert forall k: nat :: k in order <==> k in Elements(order);
    T.DistinctSize(order);
    PlacesSize(ops);
  }

  lemma {:induction false} PlacesSize(ops: seq<Op>)
    ensures |ByPlace(ops).Keys| == |ops|
    decreases |ops|
  {
    if ops != [] {
      var n := |ops| - 1;
      PlacesSize(ops[..n]);
      assert ByPlace(ops).Keys == ByPlace(ops[..n]).Keys + {n};
    }
  }

  /** Ops that define and name the same are in order together. */
  lemma {:induction false} SameOrdered(ops: seq<Op>, others: seq<Op>, visible: set<nat>, wide: set<nat>)
    requires Ordered(ops, visible, wide) && |others| == |ops|
    requires forall i: nat | i < |ops| :: NamesOfOp(others[i]) == NamesOfOp(ops[i]) && others[i].results == ops[i].results
    ensures Ordered(others, visible, wide) && ResultsOf(others) == ResultsOf(ops)
    decreases |ops|
  {
    if ops != [] {
      SameOrdered(ops[1..], others[1..], visible + Elements(ops[0].results), wide);
    }
  }

  lemma {:induction false} ListedSorted(ops: seq<Op>, order: seq<nat>)
    requires T.IsOrder(ByPlace(ops).Keys, ReadsOf(ops), order) && forall op | op in order :: op in ByPlace(ops)
    ensures var listed := Listed(order, ByPlace(ops));
            Ordered(listed, {}, ResultsOf(listed))
  {
    var listed := Listed(order, ByPlace(ops));
    ReadsFit(ops);
    TopologicalIsOrdered(order, ByPlace(ops), ReadsOf(ops), {});
    assert {} + ResultsOf(listed) == ResultsOf(listed);
  }

  /** The ops in the order found, each ordered inside, make an ordered region. */
  lemma {:induction false} OrderSorts(ops: seq<Op>, order: seq<nat>, others: seq<Op>)
    requires T.IsOrder(ByPlace(ops).Keys, ReadsOf(ops), order) && |others| == |order|
    requires forall i: nat | i < |order| :: order[i] < |ops| && SameOp(ops[order[i]], others[i])
    ensures Shuffled(order, ops, others) && Ordered(others, {}, ResultsOf(others))
  {
    OrderShuffles(ops, order);
    var listed := Listed(order, ByPlace(ops));
    ListedSorted(ops, order);
    forall i: nat | i < |order|
      ensures NamesOfOp(others[i]) == NamesOfOp(listed[i]) && others[i].results == listed[i].results
    {
      SameOpSets(ops[order[i]], others[i]);
    }
    SameOrdered(listed, others, {}, ResultsOf(listed));
  }

  /** The places in the order they are. */
  function Kept(n: nat): (order: seq<nat>)
    ensures IsShuffle(order, n) && forall k: nat | k < n :: order[k] == k
  {
    var order := seq(n, i requires 0 <= i < n => i);
    assert forall k: nat | k < n :: order[k] == k;
    assert forall k: nat :: k in order ==> k < n;
    assert forall k: nat :: k < n ==> k in order by {
      forall k: nat | k < n ensures k in order { assert order[k] in order; }
    }
    order
  }

  /** Orders the ops of a region and of every region inside it; one with cyclic reads keeps the order it has. */
  method SortRegion(r: Region) returns (s: Region)
    ensures SameRegion(r, s) && (Acyclic(r) ==> Sorted(s))
    ensures !T.Acyclic(ReadsOf(r.ops)) ==> |s.ops| == |r.ops| && forall i: nat | i < |r.ops| :: SameOp(r.ops[i], s.ops[i])
    decreases r, 0
  {
    ReadsFit(r.ops);
    var outcome := T.TopologicalOrder(ByPlace(r.ops).Keys, ReadsOf(r.ops));
    var order := Kept(|r.ops|);
    if outcome.Ordered? {
      OrderShuffles(r.ops, outcome.order);
      order := outcome.order;
    }
    var ops := SortOps(r.ops, order);
    if outcome.Ordered? {
      OrderSorts(r.ops, order, ops);
    }
    assert Shuffled(order, r.ops, ops);
    s := Region(r.ports, ops, r.results);
  }

  /** The ops in the given order, each ordered inside. */
  method SortOps(ops: seq<Op>, order: seq<nat>) returns (s: seq<Op>)
    requires IsShuffle(order, |ops|)
    ensures |s| == |ops| && forall i: nat | i < |order| ::
              order[i] < |ops| && SameOp(ops[order[i]], s[i]) && (AcyclicOp(ops[order[i]]) ==> SortedOp(s[i]))
    decreases ops, 1
  {
    s := [];
    for k := 0 to |order|
      invariant |s| == k
      invariant forall i: nat | i < k ::
                  order[i] < |ops| && SameOp(ops[order[i]], s[i]) && (AcyclicOp(ops[order[i]]) ==> SortedOp(s[i]))
    {
      assert order[k] in order;
      var op := SortOp(ops[order[k]]);
      s := s + [op];
    }
  }

  method SortOp(op: Op) returns (s: Op)
    ensures SameOp(op, s) && (AcyclicOp(op) ==> SortedOp(s))
    decreases op, 0
  {
    var regions := [];
    for k := 0 to |op.regions|
      invariant |regions| == k
      invariant forall i: nat | i < k :: SameRegion(op.regions[i], regions[i]) && (Acyclic(op.regions[i]) ==> Sorted(regions[i]))
    {
      var region := SortRegion(op.regions[k]);
      regions := regions + [region];
    }
    s := Op(op.name, op.operands, op.results, regions);
  }
}
