/**
  Which ops of a region read which of their siblings: the flat scan of the
  store, which climbs from every op below the region, against the recursive
  definition through what an op and everything nested in it read.
 */
module SiblingReads {
  import opened Options

  datatype OpRow = OpRow(operands: seq<nat>, results: seq<nat>, regions: seq<nat>, home: nat)

  datatype RegionRow = RegionRow(ports: seq<nat>, results: seq<nat>, ops: seq<nat>, parent: Option<nat>)

  /** The rows of the tree, the defining op of each value, and how deep each op is nested. */
  datatype Tree = Tree(ops: map<nat, OpRow>, regions: map<nat, RegionRow>, defs: map<nat, nat>, level: map<nat, nat>, bottom: nat)

  /** The op around the one given, if any. */
  function Outer(t: Tree, o: nat): Option<nat>
  {
    if o in t.ops && t.ops[o].home in t.regions then t.regions[t.ops[o].home].parent else None
  }

  /** Parents and children agree, nesting is well-founded, and each value is defined where its row says. */
  ghost predicate WellFormed(t: Tree)
  {
    && (forall r, o {:trigger o in t.regions[r].ops} | r in t.regions && o in t.regions[r].ops :: o in t.ops && t.ops[o].home == r)
    && (forall o {:trigger t.ops[o].home} | o in t.ops :: t.ops[o].home in t.regions && o in t.regions[t.ops[o].home].ops)
    && (forall o, r {:trigger r in t.ops[o].regions} | o in t.ops && r in t.ops[o].regions :: r in t.regions && t.regions[r].parent == Some(o))
    && (forall o {:trigger Outer(t, o)} | o in t.ops && Outer(t, o).Some? ::
          && Outer(t, o).value in t.ops && Outer(t, o).value in t.level && o in t.level
          && t.ops[o].home in t.ops[Outer(t, o).value].regions && t.level[Outer(t, o).value] < t.level[o])
    && t.ops.Keys <= t.level.Keys && (forall o | o in t.level :: t.level[o] < t.bottom)
    && (forall v | v in t.defs :: t.defs[v] in t.ops && v in t.ops[t.defs[v]].results)
    && (forall o, v {:trigger v in t.ops[o].results} | o in t.ops && v in t.ops[o].results :: v in t.defs && t.defs[v] == o)
    && (forall r, v {:trigger v in t.regions[r].ports} | r in t.regions && v in t.regions[r].ports :: v !in t.defs)
  }

  /** The op is in the region, at any depth. */
  predicate InRegion(t: Tree, o: nat, r: nat)
    requires WellFormed(t) && o in t.ops
    decreases t.level[o]
  {
    t.ops[o].home == r || (Outer(t, o).Some? && InRegion(t, Outer(t, o).value, r))
  }

  /** The op directly in region `r` that is, or is around, the one given. */
  function Climb(t: Tree, o: nat, r: nat): (top: Option<nat>)
    requires WellFormed(t) && o in t.ops
    ensures top.Some? <==> InRegion(t, o, r)
    ensures top.Some? ==> top.value in t.ops && t.ops[top.value].home == r
    decreases t.level[o]
  {
    if t.ops[o].home == r then Some(o) else if Outer(t, o).None? then None else Climb(t, Outer(t, o).value, r)
  }

  // ----- Up and down the tree.

  /** Below an op means deeper. */
  lemma {:induction false} BelowIsDeeper(t: Tree, x: nat, a: nat, q: nat)
    requires WellFormed(t) && x in t.ops && a in t.ops && q in t.ops[a].regions && InRegion(t, x, q)
    ensures t.level[a] < t.level[x]
    decreases t.level[x]
  {
    var o := Outer(t, x);
    if t.ops[x].home != q {
      BelowIsDeeper(t, o.value, a, q);
    }
  }

  /** Climbing from below an op of the region ends at that op. */
  lemma {:induction false} ClimbsTo(t: Tree, x: nat, a: nat, q: nat)
    requires WellFormed(t) && x in t.ops && a in t.ops && q in t.ops[a].regions && InRegion(t, x, q)
    ensures Climb(t, x, t.ops[a].home) == Some(a)
    decreases t.level[x]
  {
    BelowIsDeeper(t, x, a, q);
    var r := t.ops[a].home;
    var o := Outer(t, x).value;
    if t.ops[x].home == r {
      // The region would be inside itself.
      assert Outer(t, a) == Some(o);
      if t.ops[x].home != q {
        BelowIsDeeper(t, o, a, q);
      }
      assert false;
    }
    if t.ops[x].home != q {
      ClimbsTo(t, o, a, q);
    }
  }

  /** The last step of a climb into a region goes through one of the top op's regions. */
  lemma {:induction false} ClimbedFrom(t: Tree, x: nat, r: nat) returns (q: nat)
    requires WellFormed(t) && x in t.ops && InRegion(t, x, r) && Climb(t, x, r) != Some(x)
    ensures q in t.ops[Climb(t, x, r).value].regions && InRegion(t, x, q)
    decreases t.level[x]
  {
    var o := Outer(t, x).value;
    if Climb(t, o, r) == Some(o) {
      q := t.ops[x].home;
    } else {
      q := ClimbedFrom(t, o, r);
    }
  }

  lemma {:induction false} ChildIsIn(t: Tree, x: nat, c: nat, q: nat, r: nat)
    requires WellFormed(t) && x in t.ops && c in t.ops && t.ops[c].home == r && q in t.ops[c].regions && InRegion(t, x, q)
    ensures InRegion(t, x, r)
    decreases t.level[x]
  {
    if t.ops[x].home != q {
      ChildIsIn(t, Outer(t, x).value, c, q, r);
    }
  }

  // ----- The recursive definition.

  /** Values named for reading, operands and region results, or values brought in, op results and region ports. */
  datatype Side = Reading | Defining

  function OpCells(t: Tree, side: Side, o: nat): seq<nat>
    requires o in t.ops
  {
    if side == Reading then t.ops[o].operands else t.ops[o].results
  }

  function RegionCells(t: Tree, side: Side, r: nat): seq<nat>
    requires r in t.regions
  {
    if side == Reading then t.regions[r].results else t.regions[r].ports
  }

  /** The op names the value, itself or through one of its regions. */
  ghost predicate Mentions(t: Tree, side: Side, o: nat, v: nat)
    requires WellFormed(t) && o in t.ops
  {
    v in OpCells(t, side, o) || exists q :: q in t.ops[o].regions && v in RegionCells(t, side, q)
  }

  /** The region, or an op in it at any depth, names the value. */
  ghost predicate MentionsIn(t: Tree, side: Side, r: nat, v: nat)
    requires WellFormed(t) && r in t.regions
  {
    v in RegionCells(t, side, r) || exists x :: x in t.ops && InRegion(t, x, r) && Mentions(t, side, x, v)
  }

  /** What an op reads: its operands, and what its regions read and do not define. */
  ghost predicate IsRead(t: Tree, a: nat, v: nat)
    requires WellFormed(t) && a in t.ops
  {
    || v in t.ops[a].operands
    || ((exists q :: q in t.ops[a].regions && MentionsIn(t, Reading, q, v)) && !(exists q :: q in t.ops[a].regions && MentionsIn(t, Defining, q, v)))
  }

  // ----- The two agree.

  /** A pair of the flat scan: some op below the region names a value of a sibling of the op it is below. */
  ghost predicate ScanPair(t: Tree, r: nat, a: nat, b: nat)
    requires WellFormed(t)
  {
    exists x, v :: x in t.ops && Mentions(t, Reading, x, v) && Climb(t, x, r) == Some(a) && v in t.defs && t.defs[v] == b && t.ops[b].home == r
  }

  /** Both are in the region and `b` defines a value `a` reads. */
  ghost predicate ReadPair(t: Tree, r: nat, a: nat, b: nat)
    requires WellFormed(t)
  {
    && a in t.ops && t.ops[a].home == r && b in t.ops && t.ops[b].home == r
    && exists v :: IsRead(t, a, v) && v in t.defs && t.defs[v] == b
  }

  /** A sibling, or the op itself, is not below the op. */
  lemma {:induction false} NotBelow(t: Tree, a: nat, q: nat, b: nat)
    requires WellFormed(t) && a in t.ops && q in t.ops[a].regions && b in t.ops && t.ops[b].home == t.ops[a].home
    ensures !InRegion(t, b, q)
  {
    if InRegion(t, b, q) {
      ClimbsTo(t, b, a, q);
      BelowIsDeeper(t, b, a, q);
    }
  }

  lemma {:induction false} DefinerIsOne(t: Tree, x: nat, v: nat)
    requires WellFormed(t) && x in t.ops && v in t.defs && Mentions(t, Defining, x, v)
    ensures x == t.defs[v]
  {
  }

  /** A value a sibling defines is not defined below. */
  lemma {:induction false} SiblingNotBelow(t: Tree, a: nat, q: nat, v: nat)
    requires WellFormed(t) && a in t.ops && q in t.ops[a].regions && v in t.defs && t.ops[t.defs[v]].home == t.ops[a].home
    ensures !MentionsIn(t, Defining, q, v)
  {
    NotBelow(t, a, q, t.defs[v]);
    forall x | x in t.ops && Mentions(t, Defining, x, v)
      ensures !InRegion(t, x, q)
    {
      DefinerIsOne(t, x, v);
    }
  }

  lemma {:induction false} ScanIsRead(t: Tree, r: nat, a: nat, b: nat)
    requires WellFormed(t) && ScanPair(t, r, a, b)
    ensures ReadPair(t, r, a, b)
  {
    var x, v :| x in t.ops && Mentions(t, Reading, x, v) && Climb(t, x, r) == Some(a) && v in t.defs && t.defs[v] == b && t.ops[b].home == r;
    forall q | q in t.ops[a].regions
      ensures !MentionsIn(t, Defining, q, v)
    {
      SiblingNotBelow(t, a, q, v);
    }
    if x != a {
      var q := ClimbedFrom(t, x, r);
      assert MentionsIn(t, Reading, q, v);
    } else if v !in t.ops[a].operands {
      var q :| q in t.ops[a].regions && v in t.regions[q].results;
      assert MentionsIn(t, Reading, q, v);
    }
    assert IsRead(t, a, v);
  }

  lemma {:induction false} ReadIsScan(t: Tree, r: nat, a: nat, b: nat)
    requires WellFormed(t) && ReadPair(t, r, a, b)
    ensures ScanPair(t, r, a, b)
  {
    var v :| IsRead(t, a, v) && v in t.defs && t.defs[v] == b;
    if v in t.ops[a].operands {
      assert Mentions(t, Reading, a, v);
    } else {
      var q :| q in t.ops[a].regions && MentionsIn(t, Reading, q, v);
      if v in t.regions[q].results {
        assert Mentions(t, Reading, a, v);
      } else {
        var x :| x in t.ops && InRegion(t, x, q) && Mentions(t, Reading, x, v);
        ClimbsTo(t, x, a, q);
      }
    }
  }

  // ----- The flat scan.

  /** The ops directly in the regions. */
  function OpsOf(t: Tree, rs: seq<nat>): seq<nat>
    requires forall q | q in rs :: q in t.regions
  {
    if rs == [] then [] else t.regions[rs[0]].ops + OpsOf(t, rs[1..])
  }

  lemma {:induction false} OpsOfMembers(t: Tree, rs: seq<nat>)
    requires forall q | q in rs :: q in t.regions
    ensures forall o: nat :: o in OpsOf(t, rs) <==> exists q :: q in rs && o in t.regions[q].ops
  {
    if rs != [] {
      OpsOfMembers(t, rs[1..]);
      assert rs == [rs[0]] + rs[1..];
    }
  }

  ghost predicate Below(t: Tree, os: seq<nat>, lv: int)
  {
    lv <= t.bottom && forall o | o in os :: o in t.ops && o in t.level && lv < t.level[o] < t.bottom
  }

  lemma {:induction false} ChildrenBelow(t: Tree, o: nat)
    requires WellFormed(t) && o in t.ops
    ensures forall c | c in OpsOf(t, t.ops[o].regions) :: c in t.ops && Outer(t, c) == Some(o)
    ensures Below(t, OpsOf(t, t.ops[o].regions), t.level[o])
  {
    OpsOfMembers(t, t.ops[o].regions);
    forall c | c in OpsOf(t, t.ops[o].regions)
      ensures c in t.ops && Outer(t, c) == Some(o)
    {
      var q :| q in t.ops[o].regions && c in t.regions[q].ops;
    }
  }

  /** How many ops there are from the op down. */
  ghost function Weight(t: Tree, o: nat): nat
    requires WellFormed(t) && o in t.ops
    decreases t.bottom - t.level[o], 1, 0
  {
    ChildrenBelow(t, o);
    1 + WeightAll(t, OpsOf(t, t.ops[o].regions), t.level[o])
  }

  ghost function WeightAll(t: Tree, os: seq<nat>, lv: int): nat
    requires WellFormed(t) && Below(t, os, lv)
    decreases t.bottom - lv, 0, |os|
  {
    if os == [] then 0 else Weight(t, os[0]) + WeightAll(t, os[1..], lv)
  }

  lemma {:induction false} WeightAllSum(t: Tree, a: seq<nat>, b: seq<nat>, lv: int, deeper: int)
    requires WellFormed(t) && Below(t, a, lv) && Below(t, b, deeper) && Below(t, a + b, lv)
    ensures WeightAll(t, a + b, lv) == WeightAll(t, a, lv) + WeightAll(t, b, deeper)
    decreases |a| + |b|
  {
    if a != [] {
      assert (a + b)[1..] == a[1..] + b;
      WeightAllSum(t, a[1..], b, lv, deeper);
    } else if b != [] {
      assert (a + b)[1..] == [] + b[1..];
      WeightAllSum(t, [], b[1..], lv, deeper);
    }
  }

  /** Everything from the given ops down, breadth first. */
  method Subtree(t: Tree, roots: seq<nat>, ghost r: nat) returns (found: seq<nat>)
    requires WellFormed(t) && r in t.regions && roots == t.regions[r].ops
    ensures forall o: nat :: o in found <==> o in t.ops && InRegion(t, o, r)
  {
    found := roots;
    var index := 0;
    while index < |found|
      invariant index <= |found| && Below(t, found, -1)
      invariant Scanned(t, r, found, index)
      decreases WeightAll(t, found[index..], -1)
    {
      var children := OpsOf(t, t.ops[found[index]].regions);
      ScanStep(t, r, found, index, children);
      WeightStep(t, found, index, children);
      found := found + children;
      index := index + 1;
    }
    forall o: nat | o in t.ops && InRegion(t, o, r)
      ensures o in found
    {
      ScannedAll(t, r, found, o);
    }
  }

  /** Everything found is in the region, the region's ops are found, and so are the children of what was looked at. */
  ghost predicate Scanned(t: Tree, r: nat, found: seq<nat>, index: nat)
    requires WellFormed(t) && r in t.regions
  {
    && (forall o | o in found :: o in t.ops && InRegion(t, o, r))
    && (forall o | o in t.regions[r].ops :: o in found)
    && (forall i: nat, o | i < index && i < |found| && o in t.ops && Outer(t, o) == Some(found[i]) :: o in found)
  }

  lemma {:induction false} ScanStep(t: Tree, r: nat, found: seq<nat>, index: nat, children: seq<nat>)
    requires WellFormed(t) && r in t.regions && index < |found| && Scanned(t, r, found, index)
    requires found[index] in t.ops && children == OpsOf(t, t.ops[found[index]].regions)
    ensures Scanned(t, r, found + children, index + 1)
  {
    var o := found[index];
    ChildrenBelow(t, o);
    OpsOfMembers(t, t.ops[o].regions);
    forall c | c in children
      ensures c in t.ops && InRegion(t, c, r)
    {
      assert found[index] in found;
    }
    forall c | c in t.ops && Outer(t, c) == Some(o)
      ensures c in children
    {
      assert t.ops[c].home in t.ops[o].regions;
    }
  }

  lemma {:induction false} WeightStep(t: Tree, found: seq<nat>, index: nat, children: seq<nat>)
    requires WellFormed(t) && index < |found| && Below(t, found, -1)
    requires found[index] in t.ops && children == OpsOf(t, t.ops[found[index]].regions)
    ensures Below(t, found + children, -1)
    ensures WeightAll(t, (found + children)[index + 1..], -1) < WeightAll(t, found[index..], -1)
  {
    var o := found[index];
    ChildrenBelow(t, o);
    var rest := found[index + 1..];
    assert found[index..] == [o] + rest && found[index..][1..] == rest;
    assert (found + children)[index + 1..] == rest + children;
    assert Below(t, rest, -1) && Below(t, found[index..], -1) && Below(t, rest + children, -1);
    WeightAllSum(t, rest, children, -1, t.level[o]);
  }

  lemma {:induction false} ScannedAll(t: Tree, r: nat, found: seq<nat>, o: nat)
    requires WellFormed(t) && r in t.regions && Scanned(t, r, found, |found|) && o in t.ops && InRegion(t, o, r)
    ensures o in found
    decreases t.level[o]
  {
    if t.ops[o].home != r {
      ScannedAll(t, r, found, Outer(t, o).value);
      var i: nat :| i < |found| && found[i] == Outer(t, o).value;
    }
  }

  /** The sibling read a named value stands for: the op that climbs to the definer's region, and the definer. */
  method SiblingRead(t: Tree, reader0: nat, v: nat, within: Option<nat>) returns (pair: Option<(nat, nat)>)
    requires WellFormed(t) && reader0 in t.ops
    ensures pair.Some? <==> v in t.defs && (within.Some? ==> t.ops[t.defs[v]].home == within.value) && InRegion(t, reader0, t.ops[t.defs[v]].home)
    ensures pair.Some? ==> pair.value == (Climb(t, reader0, t.ops[t.defs[v]].home).value, t.defs[v])
  {
    if v !in t.defs {
      return None;
    }
    var producer := t.defs[v];
    var home := t.ops[producer].home;
    if within.Some? && within.value != home {
      return None;
    }
    var reader := reader0;
    while true
      invariant reader in t.ops && Climb(t, reader, home) == Climb(t, reader0, home)
      decreases t.level[reader]
    {
      var region := t.ops[reader].home;
      if region == home {
        return Some((reader, producer));
      }
      if t.regions[region].parent.None? {
        return None;
      }
      reader := t.regions[region].parent.value;
    }
  }

  /** The cells of the regions one after another. */
  function AllRegionCells(t: Tree, side: Side, rs: seq<nat>): seq<nat>
    requires forall q | q in rs :: q in t.regions
  {
    if rs == [] then [] else RegionCells(t, side, rs[0]) + AllRegionCells(t, side, rs[1..])
  }

  lemma {:induction false} AllRegionCellsMembers(t: Tree, side: Side, rs: seq<nat>)
    requires forall q | q in rs :: q in t.regions
    ensures forall v: nat :: v in AllRegionCells(t, side, rs) <==> exists q :: q in rs && v in RegionCells(t, side, q)
  {
    if rs != [] {
      AllRegionCellsMembers(t, side, rs[1..]);
      assert rs == [rs[0]] + rs[1..];
    }
  }

  /** The sibling reads of the values one op names. */
  method PairsOf(t: Tree, o: nat, root: nat) returns (pairs: seq<(nat, nat)>)
    requires WellFormed(t) && o in t.ops
    ensures forall a: nat, b: nat :: (a, b) in pairs <==> PairFrom(t, root, o, a, b)
  {
    var named := t.ops[o].operands + AllRegionCells(t, Reading, t.ops[o].regions);
    AllRegionCellsMembers(t, Reading, t.ops[o].regions);
    pairs := [];
    for i := 0 to |named|
      invariant forall a: nat, b: nat :: (a, b) in pairs <==> PairAmong(t, root, o, named[..i], a, b)
    {
      assert named[..i + 1] == named[..i] + [named[i]];
      var pair := SiblingRead(t, o, named[i], Some(root));
      if pair.Some? {
        pairs := pairs + [pair.value];
      }
    }
    assert named[..|named|] == named;
  }

  ghost predicate PairAmong(t: Tree, root: nat, o: nat, values: seq<nat>, a: nat, b: nat)
    requires WellFormed(t) && o in t.ops
  {
    Climb(t, o, root) == Some(a) && exists v :: v in values && v in t.defs && t.defs[v] == b && t.ops[b].home == root
  }

  ghost predicate PairFrom(t: Tree, root: nat, o: nat, a: nat, b: nat)
    requires WellFormed(t) && o in t.ops
  {
    Climb(t, o, root) == Some(a) && exists v :: Mentions(t, Reading, o, v) && v in t.defs && t.defs[v] == b && t.ops[b].home == root
  }

  /** The scan finds exactly the pairs of the recursive definition. */
  method ReadsBeside(t: Tree, root: nat) returns (pairs: seq<(nat, nat)>)
    requires WellFormed(t) && root in t.regions
    ensures forall a: nat, b: nat :: (a, b) in pairs <==> ReadPair(t, root, a, b)
  {
    var ops := Subtree(t, t.regions[root].ops, root);
    pairs := [];
    for i := 0 to |ops|
      invariant forall a: nat, b: nat :: (a, b) in pairs <==> exists k: nat :: k < i && PairFrom(t, root, ops[k], a, b)
    {
      var more := PairsOf(t, ops[i], root);
      pairs := pairs + more;
    }
    forall a: nat, b: nat
      ensures (a, b) in pairs <==> ReadPair(t, root, a, b)
    {
      ScanIffRead(t, root, ops, a, b);
    }
  }

  lemma {:induction false} ScanIffRead(t: Tree, root: nat, ops: seq<nat>, a: nat, b: nat)
    requires WellFormed(t) && forall o: nat :: o in ops <==> o in t.ops && InRegion(t, o, root)
    ensures (exists k: nat :: k < |ops| && PairFrom(t, root, ops[k], a, b)) <==> ReadPair(t, root, a, b)
  {
    if k: nat :| k < |ops| && PairFrom(t, root, ops[k], a, b) {
      assert ScanPair(t, root, a, b);
      ScanIsRead(t, root, a, b);
    }
    if ReadPair(t, root, a, b) {
      ReadIsScan(t, root, a, b);
      var x, v :| x in t.ops && Mentions(t, Reading, x, v) && Climb(t, x, root) == Some(a) && v in t.defs && t.defs[v] == b && t.ops[b].home == root;
      assert x in ops && PairFrom(t, root, x, a, b);
      var k: nat :| k < |ops| && ops[k] == x;
    }
  }

  // ----- The recursive definition, computed.

  /** Through the op or one of its regions, at any depth. */
  ghost predicate MentionsFrom(t: Tree, side: Side, o: nat, v: nat)
    requires WellFormed(t) && o in t.ops
  {
    v in OpCells(t, side, o) || exists q :: q in t.ops[o].regions && MentionsIn(t, side, q, v)
  }

  /** A region mentions what it names itself and what its ops mention. */
  lemma {:induction false} RegionMentions(t: Tree, side: Side, r: nat, v: nat)
    requires WellFormed(t) && r in t.regions
    ensures MentionsIn(t, side, r, v) <==>
              v in RegionCells(t, side, r) || exists c :: c in t.regions[r].ops && MentionsFrom(t, side, c, v)
  {
    if x :| x in t.ops && InRegion(t, x, r) && Mentions(t, side, x, v) {
      OpMentionsUp(t, side, r, v, x);
    }
    if c :| c in t.regions[r].ops && MentionsFrom(t, side, c, v) {
      OpMentionsDown(t, side, r, v, c);
    }
  }

  lemma {:induction false} OpMentionsUp(t: Tree, side: Side, r: nat, v: nat, x: nat)
    requires WellFormed(t) && r in t.regions && x in t.ops && InRegion(t, x, r) && Mentions(t, side, x, v)
    ensures exists c :: c in t.regions[r].ops && MentionsFrom(t, side, c, v)
  {
    var c := Climb(t, x, r).value;
    assert c in t.regions[t.ops[c].home].ops;
    if c == x {
      if v !in OpCells(t, side, x) {
        var q :| q in t.ops[x].regions && v in RegionCells(t, side, q);
        assert MentionsIn(t, side, q, v);
      }
    } else {
      var q := ClimbedFrom(t, x, r);
      assert MentionsIn(t, side, q, v);
    }
    assert MentionsFrom(t, side, c, v);
  }

  lemma {:induction false} OpMentionsDown(t: Tree, side: Side, r: nat, v: nat, c: nat)
    requires WellFormed(t) && r in t.regions && c in t.regions[r].ops && MentionsFrom(t, side, c, v)
    ensures MentionsIn(t, side, r, v)
  {
    assert InRegion(t, c, r);
    if v in OpCells(t, side, c) {
      assert Mentions(t, side, c, v);
    } else {
      var q :| q in t.ops[c].regions && MentionsIn(t, side, q, v);
      if v in RegionCells(t, side, q) {
        assert Mentions(t, side, c, v);
      } else {
        var x :| x in t.ops && InRegion(t, x, q) && Mentions(t, side, x, v);
        ChildIsIn(t, x, c, q, r);
      }
    }
  }

  ghost function RegionLevel(t: Tree, r: nat): nat
    requires r in t.regions
  {
    var parent := t.regions[r].parent;
    if parent.Some? && parent.value in t.level then t.level[parent.value] + 1 else 0
  }

  lemma {:induction false} RegionsDeeper(t: Tree, r: nat, c: nat, q: nat)
    requires WellFormed(t) && r in t.regions && c in t.regions[r].ops && q in t.ops[c].regions
    ensures RegionLevel(t, r) < RegionLevel(t, q) <= t.bottom
  {
    assert Outer(t, c) == t.regions[r].parent;
  }

  /** Adds what the region, and everything in it, names and brings in. */
  method CollectRegionReads(t: Tree, r: nat, values0: seq<nat>, defined0: set<nat>) returns (values: seq<nat>, defined: set<nat>)
    requires WellFormed(t) && r in t.regions
    ensures forall v: nat :: v in values <==> v in values0 || MentionsIn(t, Reading, r, v)
    ensures forall v: nat :: v in defined <==> v in defined0 || MentionsIn(t, Defining, r, v)
    decreases t.bottom + 1 - RegionLevel(t, r), 1
  {
    values, defined := values0 + t.regions[r].results, defined0 + set v | v in t.regions[r].ports;
    var ops := t.regions[r].ops;
    for i := 0 to |ops|
      invariant forall v: nat :: v in values <==> v in values0 || v in t.regions[r].results || AnyFrom(t, Reading, ops, i, v)
      invariant forall v: nat :: v in defined <==> v in defined0 || v in t.regions[r].ports || AnyFrom(t, Defining, ops, i, v)
    {
      values, defined := CollectOpReads(t, r, ops[i], values, defined);
    }
    forall v: nat, side: Side
      ensures MentionsIn(t, side, r, v) <==> v in RegionCells(t, side, r) || AnyFrom(t, side, ops, |ops|, v)
    {
      RegionMentions(t, side, r, v);
    }
  }

  ghost predicate AnyFrom(t: Tree, side: Side, ops: seq<nat>, n: nat, v: nat)
    requires WellFormed(t) && n <= |ops| && forall o | o in ops :: o in t.ops
  {
    exists k: nat :: k < n && MentionsFrom(t, side, ops[k], v)
  }

  method CollectOpReads(t: Tree, ghost r: nat, o: nat, values0: seq<nat>, defined0: set<nat>) returns (values: seq<nat>, defined: set<nat>)
    requires WellFormed(t) && r in t.regions && o in t.regions[r].ops
    ensures forall v: nat :: v in values <==> v in values0 || MentionsFrom(t, Reading, o, v)
    ensures forall v: nat :: v in defined <==> v in defined0 || MentionsFrom(t, Defining, o, v)
    decreases t.bottom + 1 - RegionLevel(t, r), 0
  {
    values, defined := values0 + t.ops[o].operands, defined0 + set v | v in t.ops[o].results;
    var regions := t.ops[o].regions;
    for j := 0 to |regions|
      invariant forall v: nat :: v in values <==> v in values0 || v in t.ops[o].operands || AnyIn(t, Reading, regions, j, v)
      invariant forall v: nat :: v in defined <==> v in defined0 || v in t.ops[o].results || AnyIn(t, Defining, regions, j, v)
    {
      RegionsDeeper(t, r, o, regions[j]);
      values, defined := CollectRegionReads(t, regions[j], values, defined);
    }
  }

  ghost predicate AnyIn(t: Tree, side: Side, regions: seq<nat>, n: nat, v: nat)
    requires WellFormed(t) && n <= |regions| && forall q | q in regions :: q in t.regions
  {
    exists k: nat :: k < n && MentionsIn(t, side, regions[k], v)
  }

  /** What an op reads, by walking its regions and leaving out what they define. */
  method ValuesRead(t: Tree, a: nat) returns (values: seq<nat>)
    requires WellFormed(t) && a in t.ops
    ensures forall v: nat :: v in values <==> IsRead(t, a, v)
  {
    var nested: seq<nat>, defined: set<nat> := [], {};
    var regions := t.ops[a].regions;
    for j := 0 to |regions|
      invariant forall v: nat :: v in nested <==> AnyIn(t, Reading, regions, j, v)
      invariant forall v: nat :: v in defined <==> AnyIn(t, Defining, regions, j, v)
    {
      assert regions[j] in t.ops[a].regions;
      nested, defined := CollectRegionReads(t, regions[j], nested, defined);
    }
    values := t.ops[a].operands;
    for i := 0 to |nested|
      invariant forall v: nat :: v in values <==> v in t.ops[a].operands || (v in nested[..i] && v !in defined)
    {
      assert nested[..i + 1] == nested[..i] + [nested[i]];
      if nested[i] !in defined {
        values := values + [nested[i]];
      }
    }
    assert nested[..|nested|] == nested;
    ReadIsMentioned(t, a, values, nested, defined);
  }

  lemma {:induction false} ReadIsMentioned(t: Tree, a: nat, values: seq<nat>, nested: seq<nat>, defined: set<nat>)
    requires WellFormed(t) && a in t.ops
    requires forall v: nat :: v in nested <==> AnyIn(t, Reading, t.ops[a].regions, |t.ops[a].regions|, v)
    requires forall v: nat :: v in defined <==> AnyIn(t, Defining, t.ops[a].regions, |t.ops[a].regions|, v)
    requires forall v: nat :: v in values <==> v in t.ops[a].operands || (v in nested && v !in defined)
    ensures forall v: nat :: v in values <==> IsRead(t, a, v)
  {
    var regions := t.ops[a].regions;
    forall side: Side, v: nat
      ensures AnyIn(t, side, regions, |regions|, v) <==> exists q :: q in regions && MentionsIn(t, side, q, v)
    {
      if q :| q in regions && MentionsIn(t, side, q, v) {
        var k: nat :| k < |regions| && regions[k] == q;
      }
    }
  }
}
