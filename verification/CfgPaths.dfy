/**
  Whether control flow in an ordered region can get from one op to another
  before a state is defined again.
 */
module CfgPaths {
  import opened Options

  /** The ordered region's blocks, and the successors of the ops that end a block. */
  datatype Cfg = Cfg(blockOf: map<nat, nat>, ops: map<nat, seq<nat>>, successors: map<nat, seq<nat>>, inRegion: set<nat>)

  /** Where a state is defined: by an op, or as an argument of a block. */
  datatype Definition = ByOp(op: nat) | ByBlock(block: nat)

  function IndexOf(s: seq<nat>, op: nat): Option<nat>
  {
    if s == [] then None
    else if s[0] == op then Some(0)
    else
      match IndexOf(s[1..], op)
      case None => None
      case Some(i) => Some(i + 1)
  }

  /** The first ops of the successor blocks but the defining one; `None` when one leaves the region or is empty. */
  function Entries(cfg: Cfg, blocks: seq<nat>, def: Definition): Option<seq<nat>>
  {
    if blocks == [] then Some([])
    else if blocks[0] !in cfg.inRegion then None
    else if def == ByBlock(blocks[0]) then Entries(cfg, blocks[1..], def)
    else if blocks[0] !in cfg.ops || cfg.ops[blocks[0]] == [] then None
    else
      match Entries(cfg, blocks[1..], def)
      case None => None
      case Some(rest) => Some([cfg.ops[blocks[0]][0]] + rest)
  }

  /** The ops control can be at after `op`: the next in the block, even past a terminator, and the successors' first. */
  function Steps(cfg: Cfg, op: nat, def: Definition): Option<seq<nat>>
  {
    if op !in cfg.blockOf || cfg.blockOf[op] !in cfg.ops then None
    else
      var ops := cfg.ops[cfg.blockOf[op]];
      match IndexOf(ops, op)
      case None => None
      case Some(i) =>
        var next := if i + 1 < |ops| then [ops[i + 1]] else [];
        match Entries(cfg, if op in cfg.successors then cfg.successors[op] else [], def)
        case None => None
        case Some(entries) => Some(next + entries)
  }

  // ----- What these steps are, from the blocks themselves.

  function SuccessorsOf(cfg: Cfg, op: nat): seq<nat> { if op in cfg.successors then cfg.successors[op] else [] }

  /** The op stands in its block, and every block it branches to is of the region and has an op, unless it defines the state. */
  ghost predicate Understood(cfg: Cfg, def: Definition, op: nat)
  {
    && op in cfg.blockOf && cfg.blockOf[op] in cfg.ops && op in cfg.ops[cfg.blockOf[op]]
    && forall block | block in SuccessorsOf(cfg, op) ::
         block in cfg.inRegion && (def == ByBlock(block) || (block in cfg.ops && cfg.ops[block] != []))
  }

  /** Right behind the op in its block. */
  ghost predicate Behind(cfg: Cfg, op: nat, next: nat)
  {
    op in cfg.blockOf && cfg.blockOf[op] in cfg.ops && exists i: nat :: StandsAt(cfg.ops[cfg.blockOf[op]], op, i) && NextAt(cfg.ops[cfg.blockOf[op]], i, next)
  }

  ghost predicate StandsAt(ops: seq<nat>, op: nat, i: nat) { i < |ops| && ops[i] == op && forall k: nat | k < i :: ops[k] != op }

  ghost predicate NextAt(ops: seq<nat>, i: nat, next: nat) { i + 1 < |ops| && ops[i + 1] == next }

  /** First in a block the op branches to, but for the one that defines the state. */
  ghost predicate FirstOf(cfg: Cfg, def: Definition, op: nat, next: nat)
  {
    exists block :: block in SuccessorsOf(cfg, op) && def != ByBlock(block) && block in cfg.ops && cfg.ops[block] != [] && cfg.ops[block][0] == next
  }

  lemma {:induction false} IndexIs(s: seq<nat>, op: nat)
    ensures IndexOf(s, op).Some? <==> op in s
    ensures IndexOf(s, op).Some? ==> StandsAt(s, op, IndexOf(s, op).value)
  {
    if s != [] && s[0] != op {
      IndexIs(s[1..], op);
      assert s == [s[0]] + s[1..];
    }
  }

  lemma {:induction false} EntriesAre(cfg: Cfg, blocks: seq<nat>, def: Definition)
    ensures Entries(cfg, blocks, def).Some? <==>
              forall block | block in blocks :: block in cfg.inRegion && (def == ByBlock(block) || (block in cfg.ops && cfg.ops[block] != []))
    ensures Entries(cfg, blocks, def).Some? ==>
              forall next: nat :: next in Entries(cfg, blocks, def).value <==>
                exists block :: block in blocks && def != ByBlock(block) && block in cfg.ops && cfg.ops[block] != [] && cfg.ops[block][0] == next
  {
    if blocks != [] {
      EntriesAre(cfg, blocks[1..], def);
      assert blocks == [blocks[0]] + blocks[1..];
    }
  }

  /** The steps of an op are known exactly when it is understood, and are those it may go on with. */
  lemma {:induction false} StepsAre(cfg: Cfg, op: nat, def: Definition)
    ensures Steps(cfg, op, def).Some? <==> Understood(cfg, def, op)
    ensures Steps(cfg, op, def).Some? ==>
              forall next: nat :: next in Steps(cfg, op, def).value <==> Behind(cfg, op, next) || FirstOf(cfg, def, op, next)
  {
    EntriesAre(cfg, SuccessorsOf(cfg, op), def);
    if op in cfg.blockOf && cfg.blockOf[op] in cfg.ops {
      IndexIs(cfg.ops[cfg.blockOf[op]], op);
    }
  }

  ghost predicate StepsTo(cfg: Cfg, def: Definition, op: nat, next: nat)
  {
    Understood(cfg, def, op) && (Behind(cfg, op, next) || FirstOf(cfg, def, op, next)) && def != ByOp(next)
  }

  /** A walk of the control flow that meets no new definition. */
  ghost predicate IsWalk(cfg: Cfg, def: Definition, walk: seq<nat>)
  {
    walk != [] && forall i: nat | i + 1 < |walk| :: StepsTo(cfg, def, walk[i], walk[i + 1])
  }

  /** Control can get from one op to the other before the state is defined again. */
  ghost predicate Reaches(cfg: Cfg, def: Definition, from: nat, target: nat)
  {
    exists walk: seq<nat> :: IsWalk(cfg, def, walk) && walk[0] == from && walk[|walk| - 1] == target
  }

  /** Wherever control gets to before a new definition, it is understood where it goes on. */
  ghost predicate Known(cfg: Cfg, def: Definition, from: nat)
  {
    forall op: nat | Reaches(cfg, def, from, op) :: Understood(cfg, def, op)
  }

  lemma {:induction false} ReachesOn(cfg: Cfg, def: Definition, from: nat, op: nat, next: nat)
    requires Reaches(cfg, def, from, op) && StepsTo(cfg, def, op, next)
    ensures Reaches(cfg, def, from, next)
  {
    var walk: seq<nat> :| IsWalk(cfg, def, walk) && walk[0] == from && walk[|walk| - 1] == op;
    var longer := walk + [next];
    forall i: nat | i + 1 < |longer|
      ensures StepsTo(cfg, def, longer[i], longer[i + 1])
    {
      assert i + 1 < |walk| ==> StepsTo(cfg, def, walk[i], walk[i + 1]);
    }
    assert IsWalk(cfg, def, longer);
  }

  /** A set closed under steps that has the start of a walk has all of it. */
  lemma {:induction false} WalkStays(cfg: Cfg, def: Definition, walk: seq<nat>, s: set<nat>, k: nat)
    requires IsWalk(cfg, def, walk) && walk[0] in s && k < |walk|
    requires forall op: nat, next: nat | op in s && StepsTo(cfg, def, op, next) :: next in s
    ensures walk[k] in s
  {
    if k > 0 {
      WalkStays(cfg, def, walk, s, k - 1);
      assert StepsTo(cfg, def, walk[k - 1], walk[k - 1 + 1]);
    }
  }

  ghost function AllOps(cfg: Cfg): set<nat> { set block, op | block in cfg.ops && op in cfg.ops[block] :: op }

  lemma OpOfBlock(cfg: Cfg, block: nat, i: nat)
    requires block in cfg.ops && i < |cfg.ops[block]|
    ensures cfg.ops[block][i] in AllOps(cfg)
  {
    assert cfg.ops[block][i] in cfg.ops[block];
  }

  lemma {:induction false} EntriesKnown(cfg: Cfg, blocks: seq<nat>, def: Definition)
    ensures Entries(cfg, blocks, def).Some? ==> forall op | op in Entries(cfg, blocks, def).value :: op in AllOps(cfg)
  {
    if blocks != [] {
      EntriesKnown(cfg, blocks[1..], def);
      if blocks[0] in cfg.ops && cfg.ops[blocks[0]] != [] {
        OpOfBlock(cfg, blocks[0], 0);
      }
    }
  }

  lemma {:induction false} StepsKnown(cfg: Cfg, op: nat, def: Definition)
    ensures Steps(cfg, op, def).Some? ==> forall next | next in Steps(cfg, op, def).value :: next in AllOps(cfg)
  {
    EntriesKnown(cfg, if op in cfg.successors then cfg.successors[op] else [], def);
    if op in cfg.blockOf && cfg.blockOf[op] in cfg.ops {
      var block := cfg.blockOf[op];
      var i := IndexOf(cfg.ops[block], op);
      if i.Some? && i.value + 1 < |cfg.ops[block]| {
        OpOfBlock(cfg, block, i.value + 1);
      }
    }
  }

  /** The search so far: everything met is reached, and every step of what was looked at is met. */
  ghost predicate Searched(cfg: Cfg, def: Definition, from: nat, seen: set<nat>, pending: seq<nat>)
  {
    && (forall op: nat | op in seen && def != ByOp(op) :: Reaches(cfg, def, from, op))
    && (forall op: nat | op in pending && def != ByOp(op) :: Reaches(cfg, def, from, op))
    && (from in seen || from in pending)
    && (forall op: nat | op in seen && def != ByOp(op) :: Understood(cfg, def, op))
    && (forall op: nat, next: nat | op in seen && def != ByOp(op) && StepsTo(cfg, def, op, next) :: next in seen || next in pending)
  }

  /** Looking again at what was seen, or at the definition, adds nothing. */
  lemma {:induction false} SearchPasses(cfg: Cfg, def: Definition, from: nat, seen: set<nat>, pending: seq<nat>)
    requires pending != [] && Searched(cfg, def, from, seen, pending)
    requires pending[|pending| - 1] in seen || def == ByOp(pending[|pending| - 1])
    ensures Searched(cfg, def, from, seen + {pending[|pending| - 1]}, pending[..|pending| - 1])
  {
  }

  /** Looking at an op adds its steps. */
  lemma {:induction false} SearchSteps(cfg: Cfg, def: Definition, from: nat, seen: set<nat>, pending: seq<nat>)
    requires pending != [] && Searched(cfg, def, from, seen, pending) && def != ByOp(pending[|pending| - 1])
    requires Steps(cfg, pending[|pending| - 1], def).Some?
    ensures Searched(cfg, def, from, seen + {pending[|pending| - 1]}, pending[..|pending| - 1] + Steps(cfg, pending[|pending| - 1], def).value)
  {
    var n := |pending| - 1;
    var op := pending[n];
    var steps := Steps(cfg, op, def).value;
    assert pending == pending[..n] + [op];
    assert Reaches(cfg, def, from, op);
    StepsAre(cfg, op, def);
    forall next: nat | next in steps && def != ByOp(next)
      ensures Reaches(cfg, def, from, next)
    {
      ReachesOn(cfg, def, from, op, next);
    }
  }

  ghost predicate Within(all: set<nat>, seen: set<nat>, pending: seq<nat>)
  {
    seen <= all && forall op | op in pending :: op in all
  }

  /** `Some` of whether control gets from one op to another before a new definition; `None` when the flow is not understood. */
  method PathBeforeDefinition(cfg: Cfg, from: nat, target: nat, def: Definition) returns (r: Option<bool>)
    requires from != target && def != ByOp(from) && def != ByOp(target)
    ensures r.Some? ==> (r.value <==> Reaches(cfg, def, from, target))
    ensures r == Some(false) ==> Known(cfg, def, from)
    ensures r.None? ==> !Known(cfg, def, from)
  {
    var pending := [from];
    var seen: set<nat> := {};
    ghost var all := AllOps(cfg) + {from};
    assert IsWalk(cfg, def, [from]);
    assert Reaches(cfg, def, from, from);
    while pending != []
      invariant Searched(cfg, def, from, seen, pending) && Within(all, seen, pending) && target !in seen
      decreases all - seen, |pending|
    {
      var n := |pending| - 1;
      var op := pending[n];
      assert op in pending;
      if op in seen {
        SearchPasses(cfg, def, from, seen, pending);
        assert seen + {op} == seen;
        pending := pending[..n];
        continue;
      }
      if op != from {
        if def == ByOp(op) {
          SearchPasses(cfg, def, from, seen, pending);
          seen, pending := seen + {op}, pending[..n];
          continue;
        }
        if op == target {
          return Some(true);
        }
      }
      var steps := Steps(cfg, op, def);
      if steps.None? {
        StepsAre(cfg, op, def);
        return None;
      }
      StepsKnown(cfg, op, def);
      SearchSteps(cfg, def, from, seen, pending);
      seen, pending := seen + {op}, pending[..n] + steps.value;
    }
    forall op: nat | Reaches(cfg, def, from, op)
      ensures op in seen && def != ByOp(op)
    {
      SearchedAll(cfg, def, from, op, seen);
    }
    return Some(false);
  }

  lemma {:induction false} SearchedAll(cfg: Cfg, def: Definition, from: nat, target: nat, seen: set<nat>)
    requires Searched(cfg, def, from, seen, []) && Reaches(cfg, def, from, target) && def != ByOp(from)
    ensures target in seen && def != ByOp(target)
  {
    var walk: seq<nat> :| IsWalk(cfg, def, walk) && walk[0] == from && walk[|walk| - 1] == target;
    var s := set op | op in seen && def != ByOp(op);
    WalkStays(cfg, def, walk, s, |walk| - 1);
  }

  /**
    Two uses in one ordered region are exclusive exactly if neither defines the
    state, wherever control goes from them is understood, and neither can follow
    the other in one lifetime of the state.
   */
  method ExclusiveInCfg(cfg: Cfg, left: nat, right: nat, def: Definition) returns (exclusive: bool)
    requires left != right
    ensures exclusive <==>
              && def != ByOp(left) && def != ByOp(right) && Known(cfg, def, left) && Known(cfg, def, right)
              && !Reaches(cfg, def, left, right) && !Reaches(cfg, def, right, left)
  {
    if def == ByOp(left) || def == ByOp(right) {
      return false;
    }
    var forward := PathBeforeDefinition(cfg, left, right, def);
    if forward != Some(false) {
      return false;
    }
    var back := PathBeforeDefinition(cfg, right, left, def);
    return back == Some(false);
  }
}
