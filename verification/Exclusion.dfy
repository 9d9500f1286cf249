/**
  Consumers of a state that the verifier takes to be mutually exclusive never
  both run in one iteration of the op that owns them both.
 */
module Exclusion {
  import opened Options
  import opened ThetaPaths

  /** A gate chooses one of its arms; every other op is plain here. */
  datatype Kind = Plain | Gamma(arms: seq<nat>)

  /** The op tree: what each op is, the region it is in, the op each region belongs to, and the masks of the loop bodies. */
  datatype Program = Program(kinds: map<nat, Kind>, region: map<nat, nat>, parent: map<nat, nat>, depth: map<nat, nat>, paths: map<nat, Paths>)

  datatype Consumer = OpUse(op: nat) | Export(region: nat, path: Path)

  function KindOf(p: Program, op: nat): Kind { if op in p.kinds then p.kinds[op] else Plain }

  /** Nesting is a tree, and the masks have a bit for each path only. */
  ghost predicate WellFormed(p: Program)
  {
    && (forall op | op in p.region :: op in p.depth)
    && (forall r | r in p.parent :: p.parent[r] in p.depth)
    && (forall op | op in p.region && p.region[op] in p.parent :: p.depth[p.parent[p.region[op]]] < p.depth[op])
    && (forall r, op | r in p.paths && op in p.paths[r] :: p.paths[r][op] <= 3)
  }

  // ----- What the verifier computes.

  datatype Ancestor = Ancestor(owner: nat, region: nat, paths: bv8)

  function RegionOf(p: Program, c: Consumer): Option<nat>
  {
    match c
    case OpUse(op) => if op in p.region then Some(p.region[op]) else None
    case Export(region, _) => Some(region)
  }

  function PathsOf(p: Program, c: Consumer, region: nat): bv8
  {
    match c
    case OpUse(op) => if region in p.paths then Of(p.paths[region], op) else 3
    case Export(_, path) => Mask(path)
  }

  function Level(p: Program, c: Consumer): nat
  {
    match c
    case OpUse(op) => if op in p.depth then p.depth[op] else 0
    case Export(region, _) => if region in p.parent && p.parent[region] in p.depth then p.depth[p.parent[region]] + 1 else 0
  }

  /** The ops around a consumer from the inside out, each with the region and the paths the consumer is on in it. */
  function Ancestry(p: Program, c: Consumer): seq<Ancestor>
    requires WellFormed(p)
    decreases Level(p, c)
  {
    var region := RegionOf(p, c);
    if region.None? || region.value !in p.parent then []
    else
      var owner := p.parent[region.value];
      [Ancestor(owner, region.value, PathsOf(p, c, region.value))] + Ancestry(p, OpUse(owner))
  }

  /** The first ancestor with the owner. */
  function Find(ancestry: seq<Ancestor>, owner: nat): Option<Ancestor>
  {
    if ancestry == [] then None else if ancestry[0].owner == owner then Some(ancestry[0]) else Find(ancestry[1..], owner)
  }

  /** Two ancestors of one owner that keep their consumers apart: no path of a loop in common, or different arms of a gate. */
  predicate Apart(p: Program, left: Ancestor, right: Ancestor)
  {
    if left.region == right.region then left.region in p.paths && left.paths & right.paths == 0
    else
      var kind := KindOf(p, left.owner);
      kind.Gamma? && left.region in kind.arms && right.region in kind.arms
  }

  predicate ExclusiveArms(p: Program, left: Consumer, right: Consumer)
    requires WellFormed(p)
  {
    left != right && exists i: nat :: i < |Ancestry(p, left)| && FoundApart(p, Ancestry(p, left)[i], Ancestry(p, right))
  }

  predicate FoundApart(p: Program, l: Ancestor, others: seq<Ancestor>)
  {
    var found := Find(others, l.owner);
    found.Some? && Apart(p, l, found.value)
  }

  // ----- What that comes to, from the nesting itself.

  /** The consumer sits in a region of the owner: `x` is what of it stands right in the region, itself or an op around it. */
  ghost predicate Sits(p: Program, c: Consumer, owner: nat, region: nat, x: Consumer)
    requires WellFormed(p)
    decreases Level(p, c)
  {
    var r := RegionOf(p, c);
    && r.Some? && r.value in p.parent
    && ((owner == p.parent[r.value] && region == r.value && x == c) || Sits(p, OpUse(p.parent[r.value]), owner, region, x))
  }

  /** What stands in the loop body acts when an iteration takes the path. */
  ghost predicate OnPath(p: Program, x: Consumer, region: nat, path: Path)
  {
    match x
    case OpUse(op) => region in p.paths && op in p.paths[region] && p.paths[region][op] & (if path == Continue then 1 else 2) != 0
    case Export(_, way) => way == path || way == Only
  }

  ghost predicate SharePath(p: Program, x: Consumer, y: Consumer, region: nat)
  {
    (OnPath(p, x, region, Continue) && OnPath(p, y, region, Continue)) || (OnPath(p, x, region, Exit) && OnPath(p, y, region, Exit))
  }

  /** The owner keeps apart what sits in these regions of it. */
  ghost predicate KeptApart(p: Program, owner: nat, rl: nat, x: Consumer, rr: nat, y: Consumer)
  {
    if rl == rr then rl in p.paths && !SharePath(p, x, y, rl)
    else owner in p.kinds && p.kinds[owner].Gamma? && rl in p.kinds[owner].arms && rr in p.kinds[owner].arms
  }

  lemma {:induction false} AncestryIs(p: Program, c: Consumer, a: Ancestor)
    requires WellFormed(p)
    ensures a in Ancestry(p, c) <==> exists x: Consumer :: Sits(p, c, a.owner, a.region, x) && a.paths == PathsOf(p, x, a.region)
    decreases Level(p, c)
  {
    var region := RegionOf(p, c);
    if region.Some? && region.value in p.parent {
      var owner := p.parent[region.value];
      AncestryIs(p, OpUse(owner), a);
      var head := Ancestor(owner, region.value, PathsOf(p, c, region.value));
      assert Ancestry(p, c) == [head] + Ancestry(p, OpUse(owner));
      if a == head {
        assert Sits(p, c, a.owner, a.region, c);
      }
    }
  }

  lemma NoCommonBit(x: bv8, y: bv8)
    requires x <= 3 && y <= 3
    ensures x & y == 0 <==> !((x & 1 != 0 && y & 1 != 0) || (x & 2 != 0 && y & 2 != 0))
  {
  }

  lemma NoBits()
    ensures 0 as bv8 & 1 == 0 && 0 as bv8 & 2 == 0
  {
  }

  lemma MaskBits(path: Path)
    ensures Mask(path) <= 3 && (Mask(path) & 1 != 0 <==> path != Exit) && (Mask(path) & 2 != 0 <==> path != Continue)
  {
  }

  lemma PathBits(p: Program, x: Consumer, region: nat)
    requires WellFormed(p) && region in p.paths
    ensures PathsOf(p, x, region) <= 3
    ensures OnPath(p, x, region, Continue) <==> PathsOf(p, x, region) & 1 != 0
    ensures OnPath(p, x, region, Exit) <==> PathsOf(p, x, region) & 2 != 0
  {
    if x.Export? {
      MaskBits(x.path);
    } else {
      NoBits();
    }
  }

  lemma {:induction false} ApartIs(p: Program, owner: nat, rl: nat, x: Consumer, rr: nat, y: Consumer)
    requires WellFormed(p)
    ensures Apart(p, Ancestor(owner, rl, PathsOf(p, x, rl)), Ancestor(owner, rr, PathsOf(p, y, rr))) <==> KeptApart(p, owner, rl, x, rr, y)
  {
    if rl == rr && rl in p.paths {
      PathBits(p, x, rl);
      PathBits(p, y, rl);
      NoCommonBit(PathsOf(p, x, rl), PathsOf(p, y, rl));
    }
  }

  /** Two consumers are found exclusive exactly if they differ and an op around both keeps them apart. */
  lemma {:induction false} ExclusiveExactly(p: Program, left: Consumer, right: Consumer)
    requires WellFormed(p)
    ensures ExclusiveArms(p, left, right) <==>
              left != right && exists owner: nat, rl: nat, x: Consumer, rr: nat, y: Consumer ::
                Sits(p, left, owner, rl, x) && Sits(p, right, owner, rr, y) && KeptApart(p, owner, rl, x, rr, y)
  {
    if ExclusiveArms(p, left, right) {
      var owner, rl, x, rr, y := FoundKeepsApart(p, left, right);
    }
    if left != right {
      forall owner: nat, rl: nat, x: Consumer, rr: nat, y: Consumer |
        Sits(p, left, owner, rl, x) && Sits(p, right, owner, rr, y) && KeptApart(p, owner, rl, x, rr, y)
        ensures ExclusiveArms(p, left, right)
      {
        MustBeFound(p, left, right, owner, rl, x, rr, y);
      }
    }
  }

  lemma {:induction false} FoundKeepsApart(p: Program, left: Consumer, right: Consumer) returns (owner: nat, rl: nat, x: Consumer, rr: nat, y: Consumer)
    requires WellFormed(p) && ExclusiveArms(p, left, right)
    ensures Sits(p, left, owner, rl, x) && Sits(p, right, owner, rr, y) && KeptApart(p, owner, rl, x, rr, y)
  {
    var i: nat :| i < |Ancestry(p, left)| && FoundApart(p, Ancestry(p, left)[i], Ancestry(p, right));
    var l := Ancestry(p, left)[i];
    var r := Find(Ancestry(p, right), l.owner).value;
    Found(Ancestry(p, right), l.owner);
    AncestryIs(p, left, l);
    AncestryIs(p, right, r);
    owner, rl, rr := l.owner, l.region, r.region;
    x :| Sits(p, left, owner, rl, x) && l.paths == PathsOf(p, x, rl);
    y :| Sits(p, right, owner, rr, y) && r.paths == PathsOf(p, y, rr);
    ApartIs(p, owner, rl, x, rr, y);
  }

  lemma {:induction false} MustBeFound(p: Program, left: Consumer, right: Consumer, owner: nat, rl: nat, x: Consumer, rr: nat, y: Consumer)
    requires WellFormed(p) && left != right
    requires Sits(p, left, owner, rl, x) && Sits(p, right, owner, rr, y) && KeptApart(p, owner, rl, x, rr, y)
    ensures ExclusiveArms(p, left, right)
  {
    var l, r := Ancestor(owner, rl, PathsOf(p, x, rl)), Ancestor(owner, rr, PathsOf(p, y, rr));
    AncestryIs(p, left, l);
    AncestryIs(p, right, r);
    ApartIs(p, owner, rl, x, rr, y);
    FindsIt(p, right, r);
    var i: nat :| i < |Ancestry(p, left)| && Ancestry(p, left)[i] == l;
  }

  // ----- What runs.

  /** An op's execution and the region executions inside it, one per iteration or chosen arm. */
  datatype Run = Run(op: nat, bodies: seq<Body>)

  datatype Body = Body(region: nat, path: Path, runs: seq<Run>)

  /** An execution as the interpreter makes it: a gate runs one arm, a loop iteration only ops whose mask has its path. */
  ghost predicate ValidRun(p: Program, run: Run)
  {
    && (KindOf(p, run.op).Gamma? ==> |run.bodies| <= 1)
    && forall i: nat | i < |run.bodies| ::
         ValidBody(p, run.bodies[i]) && run.bodies[i].region in p.parent && p.parent[run.bodies[i].region] == run.op
  }

  ghost predicate ValidBody(p: Program, body: Body)
  {
    && (body.region in p.paths ==> body.path != Only)
    && forall i: nat | i < |body.runs| ::
         && ValidRun(p, body.runs[i]) && body.runs[i].op in p.region && p.region[body.runs[i].op] == body.region
         && (body.region in p.paths ==> Marked(p.paths[body.region], body.path, body.runs[i].op))
  }

  ghost predicate InRun(c: Consumer, run: Run)
  {
    c == OpUse(run.op) || exists i: nat :: i < |run.bodies| && InBody(c, run.bodies[i])
  }

  /** The consumer acts in the execution: its op runs, or its region hands on its results that way. */
  ghost predicate InBody(c: Consumer, body: Body)
  {
    || (c.Export? && c.region == body.region && (c.path == Only || c.path == body.path))
    || exists i: nat :: i < |body.runs| && InRun(c, body.runs[i])
  }

  // ----- An execution is inside its ancestors.

  /** An owner's own ancestors are ancestors of everything below it. */
  lemma {:induction false} AncestorsAbove(p: Program, c: Consumer, a: Ancestor, b: Ancestor)
    requires WellFormed(p) && a in Ancestry(p, c) && b in Ancestry(p, OpUse(a.owner))
    ensures b in Ancestry(p, c)
    decreases Level(p, c)
  {
    var region := RegionOf(p, c).value;
    var owner := p.parent[region];
    if a.owner != owner {
      assert a in Ancestry(p, OpUse(owner));
      AncestorsAbove(p, OpUse(owner), a, b);
    }
  }

  /** A consumer acting in a region's execution has that region among its ancestors, on a path taken. */
  lemma {:induction false} ActsInside(p: Program, c: Consumer, body: Body) returns (a: Ancestor)
    requires WellFormed(p) && ValidBody(p, body) && InBody(c, body) && body.region in p.parent
    ensures a in Ancestry(p, c) && a.owner == p.parent[body.region] && a.region == body.region
    ensures body.region in p.paths ==> a.paths & Mask(body.path) != 0
    decreases body
  {
    if c.Export? && c.region == body.region && (c.path == Only || c.path == body.path) {
      a := Ancestry(p, c)[0];
      OnlyHasAll(body.path);
    } else {
      var i: nat :| i < |body.runs| && InRun(c, body.runs[i]);
      var run := body.runs[i];
      a := Ancestry(p, OpUse(run.op))[0];
      if c != OpUse(run.op) {
        var j: nat :| j < |run.bodies| && InBody(c, run.bodies[j]);
        var inner := ActsInside(p, c, run.bodies[j]);
        AncestorsAbove(p, c, inner, a);
      }
    }
  }

  lemma OnlyHasAll(path: Path)
    ensures Mask(Only) & Mask(path) != 0 && Mask(path) & Mask(path) != 0
  {
  }

  /** An owner is around a consumer once, so the first ancestor with it is the only one. */
  lemma {:induction false} FindsIt(p: Program, c: Consumer, a: Ancestor)
    requires WellFormed(p) && a in Ancestry(p, c)
    ensures a.owner in p.depth && p.depth[a.owner] < Level(p, c)
    ensures Find(Ancestry(p, c), a.owner) == Some(a)
    decreases Level(p, c)
  {
    var region := RegionOf(p, c).value;
    var owner := p.parent[region];
    var head, rest := Ancestor(owner, region, PathsOf(p, c, region)), Ancestry(p, OpUse(owner));
    assert Ancestry(p, c) == [head] + rest && Ancestry(p, c)[1..] == rest;
    if a != head {
      assert a in rest;
      FindsIt(p, OpUse(owner), a);
    }
  }

  /** The masks of two ancestors on one path overlap. */
  lemma Overlap(x: bv8, y: bv8, path: Path)
    requires path != Only && x & Mask(path) != 0 && y & Mask(path) != 0
    ensures x & y != 0
  {
  }

  /** Consumers found exclusive never both act in one execution of a region of their common owner. */
  lemma {:induction false} ApartNeverBoth(p: Program, left: Consumer, right: Consumer, l: Ancestor, r: Ancestor, body: Body)
    requires WellFormed(p) && l in Ancestry(p, left) && Find(Ancestry(p, right), l.owner) == Some(r) && Apart(p, l, r)
    requires ValidBody(p, body) && body.region in p.parent && p.parent[body.region] == l.owner
    ensures !(InBody(left, body) && InBody(right, body))
  {
    if InBody(left, body) && InBody(right, body) {
      var x := ActsInside(p, left, body);
      var y := ActsInside(p, right, body);
      FindsIt(p, left, l);
      FindsIt(p, left, x);
      FindsIt(p, right, y);
      if body.region in p.paths {
        Overlap(x.paths, y.paths, body.path);
      }
    }
  }

  ghost predicate Owns(p: Program, c: Consumer, owner: nat)
    requires WellFormed(p)
  {
    exists a :: a in Ancestry(p, c) && a.owner == owner
  }

  /** The owner is around both, and in no iteration of it do both act. */
  ghost predicate NeverBoth(p: Program, left: Consumer, right: Consumer, owner: nat)
    requires WellFormed(p)
  {
    && Owns(p, left, owner) && Owns(p, right, owner)
    && forall run: Run, i: nat | ValidRun(p, run) && run.op == owner && i < |run.bodies| ::
         !(InBody(left, run.bodies[i]) && InBody(right, run.bodies[i]))
  }

  /**
    Two consumers the verifier lets share a state, because they are on
    different paths of a loop or in different arms of a gate, have a common
    owner none of whose executions has one iteration in which both act.
   */
  lemma {:induction false} ExclusiveNeverBoth(p: Program, left: Consumer, right: Consumer)
    requires WellFormed(p) && ExclusiveArms(p, left, right)
    ensures exists owner: nat :: NeverBoth(p, left, right, owner)
  {
    var k: nat :| k < |Ancestry(p, left)| && FoundApart(p, Ancestry(p, left)[k], Ancestry(p, right));
    var l := Ancestry(p, left)[k];
    var r := Find(Ancestry(p, right), l.owner).value;
    Found(Ancestry(p, right), l.owner);
    forall run: Run, i: nat | ValidRun(p, run) && run.op == l.owner && i < |run.bodies|
      ensures !(InBody(left, run.bodies[i]) && InBody(right, run.bodies[i]))
    {
      ApartNeverBoth(p, left, right, l, r, run.bodies[i]);
    }
    assert NeverBoth(p, left, right, l.owner);
  }

  lemma {:induction false} Found(ancestry: seq<Ancestor>, owner: nat)
    ensures Find(ancestry, owner).Some? ==> Find(ancestry, owner).value in ancestry && Find(ancestry, owner).value.owner == owner
  {
    if ancestry != [] {
      Found(ancestry[1..], owner);
    }
  }
}
