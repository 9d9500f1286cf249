/**
  Executing an ordered region block by block, and what the search of its
  control flow says of every such execution.
 */
module CfgRuns {
  import opened Options
  import opened CfgPaths

  /** What an execution does: enter a block, or run one of its ops. */
  datatype Event = Entered(block: nat) | Ran(op: nat)

  /** What an op hands back: nothing, the block it branches to, or control of the whole region. */
  datatype Flow = Onward | Goto(block: nat) | Leave

  /** The flow each op hands back, by how much has happened before it. */
  type Flows = (nat, nat) -> Flow

  /** Every op stands in one place of one block. */
  ghost predicate Placed(cfg: Cfg)
  {
    forall block: nat, i: nat | block in cfg.ops && i < |cfg.ops[block]| :: PlacedAt(cfg, block, i)
  }

  ghost predicate PlacedAt(cfg: Cfg, block: nat, i: nat)
    requires block in cfg.ops && i < |cfg.ops[block]|
  {
    var op := cfg.ops[block][i];
    op in cfg.blockOf && cfg.blockOf[op] == block && IndexOf(cfg.ops[block], op) == Some(i)
  }

  /** Ops branch only to the successors they declare. */
  ghost predicate Branches(cfg: Cfg, flows: Flows)
  {
    forall step: nat, op: nat | flows(step, op).Goto? :: op in cfg.successors && flows(step, op).block in cfg.successors[op]
  }

  // ----- What an execution is.

  function OpAt(cfg: Cfg, block: nat, i: nat): Option<Event>
  {
    if block in cfg.ops && i < |cfg.ops[block]| then Some(Ran(cfg.ops[block][i])) else None
  }

  /** What happens after the last of these events, if anything does. */
  function Next(cfg: Cfg, flows: Flows, trace: seq<Event>): Option<Event>
    requires trace != []
  {
    var n := |trace| - 1;
    match trace[n]
    case Entered(block) => OpAt(cfg, block, 0)
    case Ran(op) =>
      match flows(n, op)
      case Goto(block) => Some(Entered(block))
      case Leave => None
      case Onward =>
        if op in cfg.blockOf && cfg.blockOf[op] in cfg.ops && IndexOf(cfg.ops[cfg.blockOf[op]], op).Some?
        then OpAt(cfg, cfg.blockOf[op], IndexOf(cfg.ops[cfg.blockOf[op]], op).value + 1)
        else None
  }

  ghost predicate IsRun(cfg: Cfg, flows: Flows, entry: nat, trace: seq<Event>)
  {
    trace != [] && trace[0] == Entered(entry) && forall n: nat | 0 < n < |trace| :: Next(cfg, flows, trace[..n]) == Some(trace[n])
  }

  lemma {:induction false} RunGrows(cfg: Cfg, flows: Flows, entry: nat, trace: seq<Event>, event: Event)
    requires IsRun(cfg, flows, entry, trace) && Next(cfg, flows, trace) == Some(event)
    ensures IsRun(cfg, flows, entry, trace + [event])
  {
    var longer := trace + [event];
    forall n: nat | 0 < n < |longer|
      ensures Next(cfg, flows, longer[..n]) == Some(longer[n])
    {
      assert longer[..n] == trace[..n];
      assert n == |trace| ==> trace[..n] == trace;
    }
  }

  /** How the execution of a region ends. */
  datatype End = Left | FellThrough | StepLimit

  function OpsRun(trace: seq<Event>): nat
  {
    if trace == [] then 0 else OpsRun(trace[..|trace| - 1]) + if trace[|trace| - 1].Ran? then 1 else 0
  }

  lemma {:induction false} OpsRunMore(trace: seq<Event>, event: Event)
    ensures OpsRun(trace + [event]) == OpsRun(trace) + if event.Ran? then 1 else 0
  {
    assert (trace + [event])[..|trace|] == trace;
  }

  ghost predicate Ended(cfg: Cfg, flows: Flows, trace: seq<Event>, end: End)
    requires trace != []
  {
    var last := trace[|trace| - 1];
    match end
    case Left => last.Ran? && flows(|trace| - 1, last.op).Leave?
    case FellThrough => Next(cfg, flows, trace).None? && (last.Ran? ==> flows(|trace| - 1, last.op).Onward?)
    case StepLimit => Next(cfg, flows, trace).Some? && Next(cfg, flows, trace).value.Ran?
  }

  /** An execution inside a block, the `i`th op of which comes next. */
  ghost predicate InBlock(cfg: Cfg, flows: Flows, entry: nat, block: nat, i: nat, trace: seq<Event>)
  {
    && IsRun(cfg, flows, entry, trace) && Next(cfg, flows, trace) == OpAt(cfg, block, i)
    && (trace[|trace| - 1].Ran? ==> flows(|trace| - 1, trace[|trace| - 1].op).Onward?)
  }

  /** Running the op whose turn it is. */
  lemma {:induction false} OpRuns(cfg: Cfg, flows: Flows, entry: nat, trace: seq<Event>, block: nat, i: nat)
    requires Placed(cfg) && InBlock(cfg, flows, entry, block, i, trace) && block in cfg.ops && i < |cfg.ops[block]|
    ensures var op := cfg.ops[block][i];
            var longer := trace + [Ran(op)];
            && IsRun(cfg, flows, entry, longer) && OpsRun(longer) == OpsRun(trace) + 1
            && (flows(|trace|, op).Onward? ==> InBlock(cfg, flows, entry, block, i + 1, longer))
  {
    RunGrows(cfg, flows, entry, trace, Ran(cfg.ops[block][i]));
    OpsRunMore(trace, Ran(cfg.ops[block][i]));
    var op := cfg.ops[block][i];
    assert PlacedAt(cfg, block, i);
    assert (trace + [Ran(op)])[|trace|] == Ran(op);
  }

  /** Where a block is left with an op still to run, or with none. */
  lemma {:induction false} BlockEnds(cfg: Cfg, flows: Flows, entry: nat, trace: seq<Event>, block: nat, i: nat)
    requires InBlock(cfg, flows, entry, block, i, trace)
    ensures Ended(cfg, flows, trace, if block in cfg.ops && i < |cfg.ops[block]| then StepLimit else FellThrough)
  {
  }

  /** Runs the ops of a block until one hands control elsewhere. */
  method ExecBlock(cfg: Cfg, flows: Flows, ghost entry: nat, block: nat, before: seq<Event>, limit: nat) returns (trace: seq<Event>, flow: Option<Flow>, stopped: bool)
    requires Placed(cfg) && IsRun(cfg, flows, entry, before) && before[|before| - 1] == Entered(block) && OpsRun(before) <= limit
    ensures IsRun(cfg, flows, entry, trace) && OpsRun(before) <= OpsRun(trace) <= limit
    ensures stopped ==> OpsRun(trace) == limit && Ended(cfg, flows, trace, StepLimit)
    ensures !stopped && flow.None? ==> Ended(cfg, flows, trace, FellThrough)
    ensures !stopped && flow.Some? ==>
              && !flow.value.Onward? && trace[|trace| - 1].Ran? && flows(|trace| - 1, trace[|trace| - 1].op) == flow.value
              && OpsRun(before) < OpsRun(trace)
  {
    trace := before;
    var ops := if block in cfg.ops then cfg.ops[block] else [];
    for i := 0 to |ops|
      invariant InBlock(cfg, flows, entry, block, i, trace) && OpsRun(before) <= OpsRun(trace) <= limit
    {
      if OpsRun(trace) == limit {
        BlockEnds(cfg, flows, entry, trace, block, i);
        return trace, None, true;
      }
      OpRuns(cfg, flows, entry, trace, block, i);
      trace := trace + [Ran(ops[i])];
      var flow := flows(|trace| - 1, ops[i]);
      if !flow.Onward? {
        return trace, Some(flow), false;
      }
    }
    BlockEnds(cfg, flows, entry, trace, block, |ops|);
    return trace, None, false;
  }

  /** Runs a region from its first block until control leaves it. */
  method ExecRegion(cfg: Cfg, flows: Flows, entry: nat, limit: nat) returns (trace: seq<Event>, end: End)
    requires Placed(cfg)
    ensures IsRun(cfg, flows, entry, trace) && OpsRun(trace) <= limit && Ended(cfg, flows, trace, end)
    ensures end == StepLimit ==> OpsRun(trace) == limit
  {
    var current := entry;
    trace := [Entered(entry)];
    assert OpsRun(trace[..0]) == 0;
    while true
      invariant IsRun(cfg, flows, entry, trace) && trace[|trace| - 1] == Entered(current) && OpsRun(trace) <= limit
      decreases limit - OpsRun(trace)
    {
      var flow, stopped;
      trace, flow, stopped := ExecBlock(cfg, flows, entry, current, trace, limit);
      if stopped {
        return trace, StepLimit;
      }
      match flow {
        case None => return trace, FellThrough;
        case Some(Leave) => return trace, Left;
        case Some(Goto(dest)) =>
          RunGrows(cfg, flows, entry, trace, Entered(dest));
          OpsRunMore(trace, Entered(dest));
          trace, current := trace + [Entered(dest)], dest;
      }
    }
  }

  // ----- The search speaks for every execution.

  /** The state is defined anew. */
  ghost predicate Defines(def: Definition, event: Event)
  {
    match def
    case ByOp(op) => event == Ran(op)
    case ByBlock(block) => event == Entered(block)
  }

  ghost predicate Quiet(def: Definition, trace: seq<Event>, i: nat, j: nat)
  {
    forall k: nat | i < k <= j && k < |trace| :: !Defines(def, trace[k])
  }

  /** From one op run to the next one run is a step of the search. */
  lemma {:induction false} RunSteps(cfg: Cfg, flows: Flows, entry: nat, trace: seq<Event>, def: Definition, n: nat)
    requires Branches(cfg, flows) && IsRun(cfg, flows, entry, trace) && n + 1 < |trace| && trace[n].Ran?
    requires Understood(cfg, def, trace[n].op)
    ensures trace[n + 1].Ran? && !Defines(def, trace[n + 1]) ==> StepsTo(cfg, def, trace[n].op, trace[n + 1].op)
    ensures trace[n + 1].Entered? && !Defines(def, trace[n + 1]) && n + 2 < |trace| ==>
              trace[n + 2].Ran? && (!Defines(def, trace[n + 2]) ==> StepsTo(cfg, def, trace[n].op, trace[n + 2].op))
  {
    var op := trace[n].op;
    assert trace[..n + 1][n] == trace[n];
    assert Next(cfg, flows, trace[..n + 1]) == Some(trace[n + 1]);
    IndexIs(cfg.ops[cfg.blockOf[op]], op);
    if trace[n + 1].Entered? && !Defines(def, trace[n + 1]) && n + 2 < |trace| {
      assert trace[..n + 2][n + 1] == trace[n + 1];
      assert Next(cfg, flows, trace[..n + 2]) == Some(trace[n + 2]);
      assert FirstOf(cfg, def, op, trace[n + 2].op);
    }
  }

  /** Until the state is defined anew, every op an execution runs is one the search reaches. */
  lemma {:induction false} RunReaches(cfg: Cfg, flows: Flows, entry: nat, trace: seq<Event>, def: Definition, i: nat, j: nat)
    requires Branches(cfg, flows) && IsRun(cfg, flows, entry, trace) && i <= j < |trace| && trace[i].Ran? && Quiet(def, trace, i, j)
    requires Known(cfg, def, trace[i].op)
    ensures trace[j].Ran? ==> Reaches(cfg, def, trace[i].op, trace[j].op)
    ensures trace[j].Entered? ==> j > i && trace[j - 1].Ran? && Reaches(cfg, def, trace[i].op, trace[j - 1].op)
    decreases j
  {
    var from := trace[i].op;
    if j == i {
      StartReaches(cfg, def, from);
    } else {
      RunReaches(cfg, flows, entry, trace, def, i, j - 1);
      LastStep(cfg, flows, entry, trace, def, from, j);
    }
  }

  lemma {:induction false} StartReaches(cfg: Cfg, def: Definition, from: nat)
    ensures Reaches(cfg, def, from, from)
  {
    assert IsWalk(cfg, def, [from]);
  }

  /** What was reached one event before is reached, or is left for a block. */
  lemma {:induction false} LastStep(cfg: Cfg, flows: Flows, entry: nat, trace: seq<Event>, def: Definition, from: nat, j: nat)
    requires Branches(cfg, flows) && IsRun(cfg, flows, entry, trace) && 0 < j < |trace| && Known(cfg, def, from)
    requires !Defines(def, trace[j]) && (trace[j - 1].Entered? ==> !Defines(def, trace[j - 1]))
    requires trace[j - 1].Ran? ==> Reaches(cfg, def, from, trace[j - 1].op)
    requires trace[j - 1].Entered? ==> j > 1 && trace[j - 2].Ran? && Reaches(cfg, def, from, trace[j - 2].op)
    ensures trace[j].Ran? ==> Reaches(cfg, def, from, trace[j].op)
    ensures trace[j].Entered? ==> trace[j - 1].Ran?
  {
    var k := if trace[j - 1].Ran? then j - 1 else j - 2;
    RunSteps(cfg, flows, entry, trace, def, k);
    if trace[j].Ran? {
      ReachesOn(cfg, def, from, trace[k].op, trace[j].op);
    }
  }

  /** Wherever the second use follows the first, the state is defined anew between them. */
  ghost predicate Redefined(def: Definition, trace: seq<Event>, left: nat, right: nat)
  {
    forall i: nat, j: nat | i < j < |trace| && trace[i] == Ran(left) && trace[j] == Ran(right) ::
      exists k: nat :: i < k < j && Defines(def, trace[k])
  }

  ghost predicate NeverFollows(cfg: Cfg, def: Definition, left: nat, right: nat)
  {
    forall flows: Flows, entry: nat, trace: seq<Event> | Branches(cfg, flows) && IsRun(cfg, flows, entry, trace) ::
      Redefined(def, trace, left, right)
  }

  lemma {:induction false} UnreachedRedefined(cfg: Cfg, flows: Flows, entry: nat, trace: seq<Event>, def: Definition, left: nat, right: nat)
    requires Branches(cfg, flows) && IsRun(cfg, flows, entry, trace)
    requires !Reaches(cfg, def, left, right) && Known(cfg, def, left) && def != ByOp(right)
    ensures Redefined(def, trace, left, right)
  {
    forall i: nat, j: nat | i < j < |trace| && trace[i] == Ran(left) && trace[j] == Ran(right)
      ensures exists k: nat :: i < k < j && Defines(def, trace[k])
    {
      if Quiet(def, trace, i, j) {
        RunReaches(cfg, flows, entry, trace, def, i, j);
        assert false;
      } else {
        var k: nat :| i < k <= j && k < |trace| && Defines(def, trace[k]);
        assert k != j;
      }
    }
  }

  lemma {:induction false} UnreachedNeverFollows(cfg: Cfg, def: Definition, left: nat, right: nat)
    requires !Reaches(cfg, def, left, right) && Known(cfg, def, left) && def != ByOp(right)
    ensures NeverFollows(cfg, def, left, right)
  {
    forall flows: Flows, entry: nat, trace: seq<Event> | Branches(cfg, flows) && IsRun(cfg, flows, entry, trace)
      ensures Redefined(def, trace, left, right)
    {
      UnreachedRedefined(cfg, flows, entry, trace, def, left, right);
    }
  }

  /** Uses found exclusive never follow each other, in any execution, within one lifetime of the state. */
  method ExclusiveUses(cfg: Cfg, left: nat, right: nat, def: Definition) returns (exclusive: bool)
    requires left != right
    ensures exclusive ==> NeverFollows(cfg, def, left, right) && NeverFollows(cfg, def, right, left)
    ensures exclusive <==>
              && def != ByOp(left) && def != ByOp(right) && Known(cfg, def, left) && Known(cfg, def, right)
              && !Reaches(cfg, def, left, right) && !Reaches(cfg, def, right, left)
  {
    exclusive := ExclusiveInCfg(cfg, left, right, def);
    if exclusive {
      UnreachedNeverFollows(cfg, def, left, right);
      UnreachedNeverFollows(cfg, def, right, left);
    }
  }
}
