/**
  The path masks the state verifier gives the ops of a loop body, against the
  ops an iteration of the loop runs.
 */
module ThetaPaths {
  import opened Seqs
  import opened Options
  import opened Demand

  /** How a region hands on its results: a loop body's continue or exit side, or the only way there is. */
  datatype Path = Only | Continue | Exit

  function Mask(path: Path): bv8 { if path == Only then 3 else if path == Continue then 1 else 2 }

  /** A loop: its body, the value that decides whether to go on, and which body results each side hands on. */
  datatype Theta = Theta(body: nat, test: nat, results: seq<nat>, continueFrom: nat, continueTo: nat, exitFrom: nat, exitTo: nat, carried: nat)

  /** The bindings are as wide as what the loop carries. */
  ghost predicate Verified(theta: Theta)
  {
    && theta.continueFrom + theta.carried == theta.continueTo <= |theta.results|
    && theta.exitFrom + theta.carried == theta.exitTo <= |theta.results|
  }

  function Side(theta: Theta, path: Path): seq<nat>
    requires theta.continueFrom <= theta.continueTo <= |theta.results| && theta.exitFrom <= theta.exitTo <= |theta.results|
  {
    if path == Continue then theta.results[theta.continueFrom..theta.continueTo] else theta.results[theta.exitFrom..theta.exitTo]
  }

  /** What an iteration that goes on needs: the test, and the next value of everything carried. */
  ghost function GoingOn(theta: Theta): set<nat>
    requires Verified(theta)
  {
    {theta.test} + set k: nat | theta.continueFrom <= k < theta.continueFrom + theta.carried :: theta.results[k]
  }

  /** What the iteration that leaves needs: the test, and the last value of everything carried. */
  ghost function Leaving(theta: Theta): set<nat>
    requires Verified(theta)
  {
    {theta.test} + set k: nat | theta.exitFrom <= k < theta.exitFrom + theta.carried :: theta.results[k]
  }

  ghost function Roots(theta: Theta, path: Path): set<nat>
    requires Verified(theta)
  {
    if path == Continue then GoingOn(theta) else Leaving(theta)
  }

  lemma {:induction false} SideIs(theta: Theta, path: Path)
    requires Verified(theta)
    ensures (set v | v in Side(theta, path)) + {theta.test} == Roots(theta, path)
  {
    if path == Continue {
      PartIs(theta.results, theta.continueFrom, theta.continueTo);
    } else {
      PartIs(theta.results, theta.exitFrom, theta.exitTo);
    }
  }

  lemma {:induction false} PartIs(s: seq<nat>, from: nat, to: nat)
    requires from <= to <= |s|
    ensures (set v | v in s[from..to]) == (set k: nat | from <= k < to :: s[k])
  {
    forall k: nat | from <= k < to
      ensures s[k] in s[from..to]
    {
      assert s[from..to][k - from] == s[k];
    }
  }

  type Paths = map<nat, bv8>

  function Of(paths: Paths, op: nat): bv8 { if op in paths then paths[op] else 0 }

  predicate Marked(paths: Paths, path: Path, op: nat) { Of(paths, op) & Mask(path) != 0 }

  /** A bit for each path, and no other. */
  ghost predicate PathBitsOnly(paths: Paths) { forall op | op in paths :: paths[op] <= 3 }

  ghost function MarkedOps(paths: Paths, path: Path): (s: set<nat>)
    ensures forall op: nat :: op in s <==> Marked(paths, path, op)
  {
    Unmarked(paths, path);
    set op | op in paths && Marked(paths, path, op)
  }

  lemma Unmarked(paths: Paths, path: Path)
    ensures forall op: nat | op !in paths :: !Marked(paths, path, op)
  {
  }

  // ----- The verifier's worklist.

  /** What has been marked so far for the roots `all`, with `todo` still to look at. */
  ghost predicate Marking(g: Graph, r: nat, all: set<nat>, todo: seq<nat>, s: set<nat>)
  {
    && s <= OpsIn(g, r)
    && (forall v | v in all :: Has(g, r, s, v) || v in todo)
    && (forall op: nat, v | op in s && v in ValuesRead(g, op) :: Has(g, r, s, v) || v in todo)
    && (forall t: set<nat> | Closed(g, r, t) && HasAll(g, r, t, all) :: s <= t && forall v | v in todo :: Has(g, r, t, v))
  }

  lemma {:induction false} MarkedIsCone(g: Graph, r: nat, all: set<nat>, s: set<nat>)
    requires Marking(g, r, all, [], s)
    ensures IsCone(g, r, all, s)
  {
    forall reader: nat, producer: nat | reader in s && ReadsOp(g, r, reader, producer)
      ensures producer in s
    {
      var v: nat :| Reads(g, reader, v) && Defines(g, r, producer, v);
      assert v in ValuesRead(g, reader) && Has(g, r, s, v);
    }
  }

  /** A value whose op is not of the region, or is marked, needs nothing more. */
  lemma {:induction false} Skips(g: Graph, r: nat, all: set<nat>, todo: seq<nat>, s: set<nat>)
    requires todo != [] && Marking(g, r, all, todo, s) && Has(g, r, s, todo[|todo| - 1])
    ensures Marking(g, r, all, todo[..|todo| - 1], s)
  {
  }

  /** An op newly marked puts what it reads on the list. */
  lemma {:induction false} Marks(g: Graph, r: nat, all: set<nat>, todo: seq<nat>, s: set<nat>)
    requires todo != [] && Marking(g, r, all, todo, s) && Producer(g, r, todo[|todo| - 1]).Some?
    ensures var op := Producer(g, r, todo[|todo| - 1]).value;
            Marking(g, r, all, todo[..|todo| - 1] + ValuesRead(g, op), s + {op})
  {
    var n := |todo| - 1;
    var v := todo[n];
    var op := Producer(g, r, v).value;
    var next := todo[..n] + ValuesRead(g, op);
    assert todo == todo[..n] + [v];
    assert forall u | u in todo && u != v :: u in next;
    assert forall u | u in ValuesRead(g, op) :: u in next;
    assert Has(g, r, s + {op}, v);
    assert forall u | Has(g, r, s, u) :: Has(g, r, s + {op}, u);
    forall t: set<nat> | Closed(g, r, t) && HasAll(g, r, t, all)
      ensures s + {op} <= t && forall u | u in next :: Has(g, r, t, u)
    {
      assert v in todo && Has(g, r, t, v);
      forall u | u in ValuesRead(g, op)
        ensures Has(g, r, t, u)
      {
        if Producer(g, r, u).Some? {
          assert ReadsOp(g, r, op, Producer(g, r, u).value);
        }
      }
    }
  }

  lemma {:induction false} StartsMarking(g: Graph, r: nat, side: seq<nat>, test: nat, all: set<nat>, s: set<nat>)
    requires s == {} && all == (set v | v in side) + {test}
    ensures Marking(g, r, all, side + [test], s)
  {
  }

  /** Marks every op one side of the loop needs. */
  method MarkPath(g: Graph, theta: Theta, path: Path, paths0: Paths) returns (paths: Paths)
    requires Verified(theta) && path != Only && MarkedOps(paths0, path) == {}
    ensures IsCone(g, theta.body, Roots(theta, path), MarkedOps(paths, path))
    ensures forall other: Path | other != Only && other != path :: MarkedOps(paths, other) == MarkedOps(paths0, other)
    ensures PathBitsOnly(paths0) ==> PathBitsOnly(paths)
  {
    paths := paths0;
    var roots := Side(theta, path) + [theta.test];
    SideIs(theta, path);
    StartsMarking(g, theta.body, Side(theta, path), theta.test, Roots(theta, path), MarkedOps(paths, path));
    while roots != []
      invariant Marking(g, theta.body, Roots(theta, path), roots, MarkedOps(paths, path))
      invariant forall other: Path | other != Only && other != path :: MarkedOps(paths, other) == MarkedOps(paths0, other)
      invariant PathBitsOnly(paths0) ==> PathBitsOnly(paths)
      decreases OpsIn(g, theta.body) - MarkedOps(paths, path), |roots|
    {
      var value := roots[|roots| - 1];
      var p := Producer(g, theta.body, value);
      if p.None? || Marked(paths, path, p.value) {
        Skips(g, theta.body, Roots(theta, path), roots, MarkedOps(paths, path));
        roots := roots[..|roots| - 1];
        continue;
      }
      Marks(g, theta.body, Roots(theta, path), roots, MarkedOps(paths, path));
      SetMark(paths, path, p.value);
      paths := paths[p.value := Of(paths, p.value) | Mask(path)];
      roots := roots[..|roots| - 1] + ValuesRead(g, p.value);
    }
    MarkedIsCone(g, theta.body, Roots(theta, path), MarkedOps(paths, path));
  }

  lemma {:induction false} SetMark(paths: Paths, path: Path, op: nat)
    requires path != Only
    ensures var after := paths[op := Of(paths, op) | Mask(path)];
            && MarkedOps(after, path) == MarkedOps(paths, path) + {op} && (PathBitsOnly(paths) ==> PathBitsOnly(after))
            && forall other: Path | other != Only && other != path :: MarkedOps(after, other) == MarkedOps(paths, other)
  {
  }

  /** The masks are exactly what each side of the loop needs: bit 1 for going on, bit 2 for leaving. */
  ghost predicate RightMasks(g: Graph, theta: Theta, paths: Paths)
    requires Verified(theta)
  {
    && IsCone(g, theta.body, GoingOn(theta), (set op | op in paths && paths[op] & 1 != 0))
    && IsCone(g, theta.body, Leaving(theta), (set op | op in paths && paths[op] & 2 != 0))
  }

  lemma {:induction false} MasksAre(paths: Paths)
    ensures MarkedOps(paths, Continue) == (set op | op in paths && paths[op] & 1 != 0)
    ensures MarkedOps(paths, Exit) == (set op | op in paths && paths[op] & 2 != 0)
  {
    Unmarked(paths, Continue);
    Unmarked(paths, Exit);
  }

  method VerifyPaths(g: Graph, theta: Theta) returns (paths: Paths)
    requires Verified(theta)
    ensures RightMasks(g, theta, paths) && PathBitsOnly(paths)
  {
    Unmarked(map[], Continue);
    Unmarked(map[], Exit);
    paths := MarkPath(g, theta, Continue, map[]);
    paths := MarkPath(g, theta, Exit, paths);
    MasksAre(paths);
  }

  // ----- One iteration.

  /**
    One iteration: the predicate first, then what the side it picks hands on.
    `decide` is what the ops run so far make of the predicate. The ops run are
    exactly those whose mask has the bit of the path taken, each once, and
    after everything it reads if the body has no cycle.
   */
  method ExecIteration(g: Graph, theta: Theta, decide: seq<nat> -> bool, ghost paths: Paths) returns (path: Path, order: seq<nat>)
    requires Verified(theta) && RightMasks(g, theta, paths)
    ensures path != Only && RunsMarked(g, theta, path, paths, order)
    ensures IsCone(g, theta.body, if path == Continue then GoingOn(theta) else Leaving(theta), (set op | op in order))
    ensures exists before :: before <= order && (path == Continue <==> decide(before))
  {
    var evaluated: set<nat> := {};
    order := [];
    evaluated, order := DemandValue(g, theta.body, theta.test, evaluated, order, []);
    ghost var before := evaluated;
    path := if decide(order) then Continue else Exit;
    var cone := CarriedSide(theta, path);
    evaluated, order := DemandAll(g, theta.body, cone, evaluated, order, []);
    IterationEnds(g, theta, path, paths, before, evaluated, order);
  }

  /** The values the loop carries out of its body on one side, as its carried chains name them. */
  function CarriedSide(theta: Theta, path: Path): (s: seq<nat>)
    requires Verified(theta)
    ensures s == Side(theta, path)
  {
    seq(theta.carried, i requires 0 <= i < theta.carried =>
      if path == Continue then theta.results[theta.continueFrom + i] else theta.results[theta.exitFrom + i])
  }

  /** The order is that of exactly the ops marked for the path, each once, after what they read if there is no cycle. */
  ghost predicate RunsMarked(g: Graph, theta: Theta, path: Path, paths: Paths, order: seq<nat>)
  {
    && Distinct(order) && (forall op: nat :: op in order <==> Marked(paths, path, op))
    && (NoCycle(g, theta.body) ==> InOrder(g, theta.body, order))
    && forall op | op in order :: op in g.home && g.home[op] == theta.body
  }

  lemma {:induction false} IterationEnds(g: Graph, theta: Theta, path: Path, paths: Paths, mid: set<nat>, all: set<nat>, order: seq<nat>)
    requires Verified(theta) && RightMasks(g, theta, paths) && path != Only && Running(g, theta.body, all, order, [])
    requires Ran(g, theta.body, theta.test, {}, mid) && RanAll(g, theta.body, Side(theta, path), mid, all)
    ensures IsCone(g, theta.body, Roots(theta, path), (set op | op in order)) && RunsMarked(g, theta, path, paths, order)
  {
    IterationRuns(g, theta, path, paths, mid, all);
    assert all == (set op | op in order);
  }

  lemma {:induction false} IterationRuns(g: Graph, theta: Theta, path: Path, paths: Paths, mid: set<nat>, all: set<nat>)
    requires Verified(theta) && RightMasks(g, theta, paths) && path != Only
    requires Ran(g, theta.body, theta.test, {}, mid) && RanAll(g, theta.body, Side(theta, path), mid, all)
    ensures IsCone(g, theta.body, Roots(theta, path), all) && all == MarkedOps(paths, path) && all <= OpsIn(g, theta.body)
  {
    IterationIsCone(g, theta, path, mid, all);
    MasksAre(paths);
    ConeIsUnique(g, theta.body, Roots(theta, path), all, MarkedOps(paths, path));
    ConeInside(g, theta.body, Roots(theta, path), all);
  }

  lemma {:induction false} IterationIsCone(g: Graph, theta: Theta, path: Path, mid: set<nat>, all: set<nat>)
    requires Verified(theta)
    requires Ran(g, theta.body, theta.test, {}, mid) && RanAll(g, theta.body, Side(theta, path), mid, all)
    ensures IsCone(g, theta.body, Roots(theta, path), all)
  {
    SideIs(theta, path);
    RunIsCone(g, theta.body, theta.test, Side(theta, path), (set v | v in Side(theta, path)) + {theta.test}, mid, all);
  }

  lemma {:induction false} RunIsCone(g: Graph, r: nat, test: nat, side: seq<nat>, roots: set<nat>, mid: set<nat>, all: set<nat>)
    requires Ran(g, r, test, {}, mid) && RanAll(g, r, side, mid, all) && roots == (set v | v in side) + {test}
    ensures IsCone(g, r, roots, all)
  {
  }
}
