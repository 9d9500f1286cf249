/**
  Whole executions of an op and everything in it: what the interpreter does
  when it demands the ops of a loop body or of a gate's arm, and the theorem
  that exclusive consumers never both act in one iteration.
 */
module Execution {
  import opened Seqs
  import opened Options
  import opened Demand
  import opened ThetaPaths
  import opened Exclusion

  /** The unordered regions as the interpreter and as the verifier see them, with their results and the loops. */
  datatype Code = Code(graph: Graph, program: Program, results: map<nat, seq<nat>>, thetas: map<nat, Theta>)

  /** The two views agree, and the masks are the verifier's. */
  ghost predicate Built(c: Code)
  {
    && WellFormed(c.program)
    && (forall op | op in c.graph.home :: op in c.program.region && c.program.region[op] == c.graph.home[op])
    && (forall op | op in c.thetas :: LoopBuilt(c, op))
    && (forall op | IsGate(c, op) :: GateBuilt(c, op))
  }

  ghost predicate LoopBuilt(c: Code, op: nat)
    requires op in c.thetas
  {
    var theta := c.thetas[op];
    && Verified(theta) && !KindOf(c.program, op).Gamma?
    && theta.body in c.program.parent && c.program.parent[theta.body] == op
    && theta.body in c.program.paths && RightMasks(c.graph, theta, c.program.paths[theta.body])
  }

  /** A gate has an arm, its arms are its own regions, and they have no masks. */
  ghost predicate GateBuilt(c: Code, op: nat)
    requires IsGate(c, op)
  {
    var arms := c.program.kinds[op].arms;
    arms != [] && forall i: nat | i < |arms| :: arms[i] in c.program.parent && c.program.parent[arms[i]] == op && arms[i] !in c.program.paths
  }

  // ----- What an execution is.

  predicate IsGate(c: Code, op: nat) { op in c.program.kinds && c.program.kinds[op].Gamma? }

  function OpsRun(runs: seq<Run>): (ops: seq<nat>)
    ensures |ops| == |runs| && forall i: nat | i < |runs| :: ops[i] == runs[i].op
  {
    seq(|runs|, i requires 0 <= i < |runs| => runs[i].op)
  }

  ghost predicate Ordered(c: Code, region: nat, ops: seq<nat>)
  {
    Distinct(ops) && (NoCycle(c.graph, region) ==> InOrder(c.graph, region, ops))
  }

  /**
    An iteration runs exactly what the values it hands on and the test need,
    which is what is marked for its path, each op once and after what it reads.
   */
  ghost predicate IterationRuns(c: Code, theta: Theta, path: Path, body: Body)
  {
    && body.region == theta.body && body.path == path && theta.body in c.program.paths && Verified(theta)
    && Ordered(c, theta.body, OpsRun(body.runs))
    && IsCone(c.graph, theta.body, if path == Continue then GoingOn(theta) else Leaving(theta), (set op | op in OpsRun(body.runs)))
    && forall op: nat :: op in OpsRun(body.runs) <==> Marked(c.program.paths[theta.body], path, op)
  }

  /** Iterations that go on, and then one that leaves. */
  ghost predicate LoopRuns(c: Code, theta: Theta, bodies: seq<Body>)
  {
    bodies != [] && forall i: nat | i < |bodies| :: IterationRuns(c, theta, if i + 1 < |bodies| then Continue else Exit, bodies[i])
  }

  /** One arm, running exactly what its results need. */
  ghost predicate GateRuns(c: Code, arms: seq<nat>, bodies: seq<Body>)
  {
    && |bodies| == 1 && bodies[0].region in arms && bodies[0].path == Only
    && Ordered(c, bodies[0].region, OpsRun(bodies[0].runs))
    && IsCone(c.graph, bodies[0].region, (set v | v in ResultsOf(c, bodies[0].region)), (set op | op in OpsRun(bodies[0].runs)))
  }

  function ResultsOf(c: Code, region: nat): seq<nat> { if region in c.results then c.results[region] else [] }

  /** A loop, a gate or a leaf did what it does, and so did everything in it. */
  ghost predicate Executes(c: Code, run: Run)
  {
    && OpExecutes(c, run)
    && forall i: nat, j: nat | i < |run.bodies| && j < |run.bodies[i].runs| :: Executes(c, run.bodies[i].runs[j])
  }

  ghost predicate OpExecutes(c: Code, run: Run)
  {
    if run.op in c.thetas then LoopRuns(c, c.thetas[run.op], run.bodies)
    else if IsGate(c, run.op) then GateRuns(c, c.program.kinds[run.op].arms, run.bodies)
    else run.bodies == []
  }

  ghost predicate RunsOf(c: Code, order: seq<nat>, runs: seq<Run>)
  {
    OpsRun(runs) == order && forall i: nat | i < |runs| :: Executes(c, runs[i])
  }

  // ----- Executing.

  /**
    Runs an op and everything in it, with at most `steps0` ops; there is no run
    only when all of them are used up. `decide` is what the predicates come to,
    one answer after another from `time0` on: the arm of a gate, how often a
    loop goes on.
   */
  method ExecOp(c: Code, op: nat, decide: nat -> nat, time0: nat, steps0: nat) returns (run: Option<Run>, time: nat, steps: nat)
    requires Built(c)
    ensures steps <= steps0 && (run.None? ==> steps == 0)
    ensures run.Some? ==> run.value.op == op && Executes(c, run.value)
    decreases steps0, 0, 0
  {
    time, steps := time0, steps0;
    if steps == 0 {
      return None, time, steps;
    }
    steps := steps - 1;
    if op in c.thetas {
      run, time, steps := ExecTheta(c, op, decide, time, steps);
    } else if IsGate(c, op) {
      run, time, steps := ExecGamma(c, op, decide, time, steps);
    } else {
      run := Some(Run(op, []));
    }
  }

  /** Runs the ops in the order they are demanded. */
  method ExecAll(c: Code, order: seq<nat>, decide: nat -> nat, time0: nat, steps0: nat) returns (runs: Option<seq<Run>>, time: nat, steps: nat)
    requires Built(c)
    ensures steps <= steps0 && (runs.None? ==> steps == 0) && (runs.Some? ==> RunsOf(c, order, runs.value))
    decreases steps0, 1, 0
  {
    time, steps := time0, steps0;
    var done: seq<Run> := [];
    for i := 0 to |order|
      invariant steps <= steps0 && RunsOf(c, order[..i], done)
    {
      var run;
      run, time, steps := ExecOp(c, order[i], decide, time, steps);
      if run.None? {
        return None, time, steps;
      }
      done := done + [run.value];
    }
    assert order[..|order|] == order;
    return Some(done), time, steps;
  }

  /** The arm a gate's predicate picks, the last one when it picks none. */
  function ArmFor(arms: seq<nat>, chosen: nat): nat
    requires arms != []
  {
    arms[if chosen < |arms| then chosen else |arms| - 1]
  }

  method ExecGamma(c: Code, op: nat, decide: nat -> nat, time0: nat, steps0: nat) returns (run: Option<Run>, time: nat, steps: nat)
    requires Built(c) && op !in c.thetas && IsGate(c, op)
    ensures steps <= steps0 && (run.None? ==> steps == 0)
    ensures run.Some? ==> run.value.op == op && Executes(c, run.value)
    ensures run.Some? ==> |run.value.bodies| == 1 && c.program.kinds[op].arms != []
    ensures run.Some? ==>
              var arms, chosen := c.program.kinds[op].arms, decide(time0);
              run.value.bodies[0].region == if chosen < |arms| then arms[chosen] else arms[|arms| - 1]
    decreases steps0, 2, 0
  {
    assert GateBuilt(c, op);
    var arm := ArmFor(c.program.kinds[op].arms, decide(time0));
    var order := ExecNodesRegion(c.graph, arm, ResultsOf(c, arm));
    var runs;
    runs, time, steps := ExecAll(c, order, decide, time0 + 1, steps0);
    if runs.None? {
      return None, time, steps;
    }
    return Some(Run(op, [Body(arm, Only, runs.value)])), time, steps;
  }

  /** The first of the iterations, with everything in them. */
  ghost predicate RunSoFar(c: Code, theta: Theta, rounds: nat, bodies: seq<Body>)
  {
    forall k: nat | k < |bodies| ::
      && IterationRuns(c, theta, if k + 1 < rounds then Continue else Exit, bodies[k])
      && forall j: nat | j < |bodies[k].runs| :: Executes(c, bodies[k].runs[j])
  }

  /** Runs a loop: as many iterations as its predicate allows, the last one leaving. */
  method ExecTheta(c: Code, op: nat, decide: nat -> nat, time0: nat, steps0: nat) returns (run: Option<Run>, time: nat, steps: nat)
    requires Built(c) && op in c.thetas
    ensures steps <= steps0 && (run.None? ==> steps == 0)
    ensures run.Some? ==> run.value.op == op && Executes(c, run.value)
    ensures run.Some? ==> |run.value.bodies| == decide(time0) + 1
    decreases steps0, 2, 0
  {
    assert LoopBuilt(c, op);
    var theta, rounds := c.thetas[op], decide(time0) + 1;
    time, steps := time0 + 1, steps0;
    var bodies: seq<Body> := [];
    for i := 0 to rounds
      invariant steps <= steps0 && |bodies| == i && RunSoFar(c, theta, rounds, bodies)
    {
      var body;
      body, time, steps := ExecOnce(c, theta, i + 1 < rounds, decide, time, steps);
      if body.None? {
        return None, time, steps;
      }
      bodies := bodies + [body.value];
    }
    return Some(Run(op, bodies)), time, steps;
  }

  /** One iteration of a loop and everything in it. */
  method ExecOnce(c: Code, theta: Theta, again: bool, decide: nat -> nat, time0: nat, steps0: nat) returns (body: Option<Body>, time: nat, steps: nat)
    requires Built(c) && Verified(theta) && theta.body in c.program.paths && RightMasks(c.graph, theta, c.program.paths[theta.body])
    ensures steps <= steps0 && (body.None? ==> steps == 0)
    ensures body.Some? ==> IterationRuns(c, theta, if again then Continue else Exit, body.value)
    ensures body.Some? ==> forall j: nat | j < |body.value.runs| :: Executes(c, body.value.runs[j])
    decreases steps0, 1, 1
  {
    var path, order := ExecIteration(c.graph, theta, _ => again, c.program.paths[theta.body]);
    var runs;
    runs, time, steps := ExecAll(c, order, decide, time0, steps0);
    if runs.None? {
      return None, time, steps;
    }
    return Some(Body(theta.body, path, runs.value)), time, steps;
  }

  // ----- Executions are what the exclusion theorem speaks of.

  lemma {:induction false} ExecutesIsValid(c: Code, run: Run)
    requires Built(c) && Executes(c, run)
    ensures ValidRun(c.program, run)
    decreases run
  {
    forall i: nat | i < |run.bodies|
      ensures ValidBody(c.program, run.bodies[i])
      ensures run.bodies[i].region in c.program.parent && c.program.parent[run.bodies[i].region] == run.op
    {
      var body := run.bodies[i];
      forall j: nat | j < |body.runs|
        ensures ValidRun(c.program, body.runs[j])
      {
        ExecutesIsValid(c, body.runs[j]);
      }
      if run.op in c.thetas {
        assert LoopBuilt(c, run.op);
        IterationIsValid(c, run.op, if i + 1 < |run.bodies| then Continue else Exit, body);
      } else {
        assert GateBuilt(c, run.op);
        ArmIsValid(c, run.op, run.bodies);
      }
    }
  }

  lemma {:induction false} IterationIsValid(c: Code, op: nat, path: Path, body: Body)
    requires Built(c) && op in c.thetas && path != Only && IterationRuns(c, c.thetas[op], path, body)
    requires forall j: nat | j < |body.runs| :: ValidRun(c.program, body.runs[j])
    ensures ValidBody(c.program, body)
  {
    var theta := c.thetas[op];
    assert LoopBuilt(c, op);
    var marked := MarkedOps(c.program.paths[theta.body], path);
    ConeInside(c.graph, theta.body, Roots(theta, path), marked);
    RunsAreHome(c, theta.body, body.runs, marked);
    forall j: nat | j < |body.runs|
      ensures Marked(c.program.paths[body.region], body.path, body.runs[j].op)
    {
      assert OpsRun(body.runs)[j] in OpsRun(body.runs);
    }
  }

  lemma {:induction false} ArmIsValid(c: Code, op: nat, bodies: seq<Body>)
    requires Built(c) && IsGate(c, op) && GateRuns(c, c.program.kinds[op].arms, bodies)
    requires forall j: nat | j < |bodies[0].runs| :: ValidRun(c.program, bodies[0].runs[j])
    ensures ValidBody(c.program, bodies[0])
    ensures bodies[0].region in c.program.parent && c.program.parent[bodies[0].region] == op
  {
    assert GateBuilt(c, op);
    var body := bodies[0];
    var ops := set x | x in OpsRun(body.runs);
    ConeInside(c.graph, body.region, (set v | v in ResultsOf(c, body.region)), ops);
    RunsAreHome(c, body.region, body.runs, ops);
  }

  lemma {:induction false} RunsAreHome(c: Code, region: nat, runs: seq<Run>, ops: set<nat>)
    requires Built(c) && ops <= OpsIn(c.graph, region) && forall op | op in OpsRun(runs) :: op in ops
    ensures forall j: nat | j < |runs| :: runs[j].op in c.program.region && c.program.region[runs[j].op] == region
  {
    forall j: nat | j < |runs|
      ensures runs[j].op in c.program.region && c.program.region[runs[j].op] == region
    {
      assert OpsRun(runs)[j] in OpsRun(runs);
    }
  }

  /**
    Every execution is complete, and in it consumers the verifier takes to be
    exclusive have a common owner such that, wherever it runs, no iteration has
    both act.
   */
  method ExclusiveInExecution(c: Code, op: nat, decide: nat -> nat, steps: nat, left: Consumer, right: Consumer)
    returns (run: Option<Run>, ghost owner: nat)
    requires Built(c) && ExclusiveArms(c.program, left, right)
    ensures run.Some? ==> run.value.op == op && Executes(c, run.value)
    ensures Owns(c.program, left, owner) && Owns(c.program, right, owner)
    ensures run.Some? ==> NeverBothIn(left, right, owner, run.value)
  {
    var time, rest;
    run, time, rest := ExecOp(c, op, decide, 0, steps);
    ExclusiveNeverBoth(c.program, left, right);
    owner :| NeverBoth(c.program, left, right, owner);
    if run.Some? {
      ExecutesIsValid(c, run.value);
      NeverBothAnywhere(c.program, left, right, owner, run.value);
    }
  }

  /** Wherever the owner runs in the execution, none of its iterations has both act. */
  ghost predicate NeverBothIn(left: Consumer, right: Consumer, owner: nat, run: Run)
  {
    && (run.op == owner ==> forall i: nat | i < |run.bodies| :: !(InBody(left, run.bodies[i]) && InBody(right, run.bodies[i])))
    && forall i: nat, j: nat | i < |run.bodies| && j < |run.bodies[i].runs| :: NeverBothIn(left, right, owner, run.bodies[i].runs[j])
  }

  lemma {:induction false} NeverBothAnywhere(p: Program, left: Consumer, right: Consumer, owner: nat, run: Run)
    requires WellFormed(p) && NeverBoth(p, left, right, owner) && ValidRun(p, run)
    ensures NeverBothIn(left, right, owner, run)
    decreases run
  {
    forall i: nat, j: nat | i < |run.bodies| && j < |run.bodies[i].runs|
      ensures NeverBothIn(left, right, owner, run.bodies[i].runs[j])
    {
      assert ValidBody(p, run.bodies[i]);
      NeverBothAnywhere(p, left, right, owner, run.bodies[i].runs[j]);
    }
  }
}
