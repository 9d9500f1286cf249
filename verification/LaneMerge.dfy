/**
  What the tasks of an epoch minted, merged: the committed space's own
  invariant holds again, so lanes never collide in any number of epochs.
 */
module LaneMerge {
  import opened Options
  import opened Minting
  import S = SpaceMerge

  /** A task: where it mints, whether its target is its own, and how much it mints. */
  datatype Task = Task(target: nat, exclusive: bool, mints: nat)

  /** A task that has its target to itself shares it with no other. */
  ghost predicate Fair(tasks: seq<Task>)
  {
    forall i: nat, j: nat | i < |tasks| && j < |tasks| && i != j && tasks[i].exclusive :: tasks[i].target != tasks[j].target
  }

  ghost function LaneOf(tasks: seq<Task>, i: nat): Lane
    requires i < |tasks|
  {
    Lane(i, |tasks|, tasks[i].exclusive)
  }

  /** The tasks' spaces after their mints. */
  ghost predicate Finished(b: Space, tasks: seq<Task>, results: seq<Space>)
  {
    |results| == |tasks| && forall i: nat | i < |tasks| :: TaskRun(ForkSpace(b), tasks[i].target, LaneOf(tasks, i), tasks[i].mints) == Some(results[i])
  }

  ghost predicate AllForked(b: Space, tasks: seq<Task>, results: seq<Space>)
  {
    |results| == |tasks| && forall i: nat | i < |tasks| :: Forked(b, results[i], tasks[i].target, LaneOf(tasks, i)) && Within(results[i])
  }

  ghost predicate Within(s: Space) { forall c | c in s.chunks :: c < s.used }

  lemma {:induction false} MintStaysWithin(s: Space, target: nat, lane: Option<Lane>)
    requires Within(s) && Mint(s, target, lane).Some?
    ensures Within(Mint(s, target, lane).value.0)
  {
  }

  lemma {:induction false} RunStaysWithin(s: Space, target: nat, lane: Lane, mints: nat)
    requires Within(s) && TaskRun(s, target, lane, mints).Some?
    ensures Within(TaskRun(s, target, lane, mints).value)
  {
    if mints > 0 {
      RunStaysWithin(s, target, lane, mints - 1);
      MintStaysWithin(TaskRun(s, target, lane, mints - 1).value, target, Some(lane));
    }
  }

  lemma {:induction false} FinishedIsForked(b: Space, tasks: seq<Task>, results: seq<Space>)
    requires Committed(b) && Finished(b, tasks, results)
    ensures AllForked(b, tasks, results)
  {
    forall i: nat | i < |tasks|
      ensures Forked(b, results[i], tasks[i].target, LaneOf(tasks, i)) && Within(results[i])
    {
      TaskRunStaysInLane(b, tasks[i].target, LaneOf(tasks, i), tasks[i].mints);
      RunStaysWithin(ForkSpace(b), tasks[i].target, LaneOf(tasks, i), tasks[i].mints);
    }
  }

  /** A chunk outside the base is of one task, and a committed chunk grows in one. */
  lemma {:induction false} OneGrows(b: Space, tasks: seq<Task>, results: seq<Space>, i: nat, j: nat, c: nat)
    requires Committed(b) && Fair(tasks) && AllForked(b, tasks, results) && i < |tasks| && j < |tasks| && i != j
    requires c in results[i].chunks && c in results[j].chunks
    ensures c in b.chunks && (results[i].chunks[c].len > b.chunks[c].len ==> results[j].chunks[c].len == b.chunks[c].len)
  {
    if c !in b.chunks {
      OneLane(c, b.used, LaneOf(tasks, i), LaneOf(tasks, j), results[i].taken, results[j].taken);
    }
  }

  // ----- The merge.

  ghost predicate HasRow(s: Space, c: nat, row: nat) { c in s.chunks && row < s.chunks[c].len }

  /** The chunks a task opened or filled. */
  function Grown(b: Space, r: Space): map<nat, Chunk>
  {
    map c | c in r.chunks && (c !in b.chunks || r.chunks[c].len > b.chunks[c].len) :: r.chunks[c]
  }

  /** One task's space taken in: its chunks, its counts, and its open chunk if its target is its own. */
  function Absorb(b: Space, m: Space, task: Task, r: Space): Space
  {
    var handed := task.exclusive && task.target in r.open && task.target in r.seen;
    m.(used := Max(m.used, r.used), chunks := m.chunks + Grown(b, r),
       open := if handed then m.open[task.target := r.open[task.target]] else m.open,
       seen := if handed then m.seen[task.target := r.seen[task.target]] else m.seen,
       minted := (m.minted + r.minted - b.minted) % U32, moduleMinted := (m.moduleMinted + r.moduleMinted - b.moduleMinted) % U32)
  }

  ghost predicate AtLeast(x: Chunk, y: Chunk) { x.owner == y.owner && x.len >= y.len }

  /** Chunk `c` has the rows of the base and of the first `n` tasks, and is one of theirs. */
  ghost predicate HoldsAt(b: Space, results: seq<Space>, n: nat, m: Space, c: nat)
  {
    && n <= |results| && (c in b.chunks ==> c in m.chunks && AtLeast(m.chunks[c], b.chunks[c]))
    && (forall i: nat | i < n && c in results[i].chunks :: c in m.chunks && AtLeast(m.chunks[c], results[i].chunks[c]))
    && (c in m.chunks ==> (c in b.chunks && m.chunks[c] == b.chunks[c]) || exists i: nat :: i < n && c in results[i].chunks && m.chunks[c] == results[i].chunks[c])
  }

  ghost predicate Holds(b: Space, results: seq<Space>, n: nat, m: Space) { forall c: nat :: HoldsAt(b, results, n, m, c) }

  /** What the lanes say of one chunk: the base's rows stay, and no earlier task grew what this one did. */
  ghost predicate Apart(b: Space, results: seq<Space>, n: nat, c: nat)
    requires n < |results|
  {
    c in results[n].chunks ==>
      && (c in b.chunks ==> AtLeast(results[n].chunks[c], b.chunks[c]))
      && (forall i: nat | i < n && c in results[i].chunks ::
            c in b.chunks && AtLeast(results[i].chunks[c], b.chunks[c]) && (results[n].chunks[c].len > b.chunks[c].len ==> results[i].chunks[c].len == b.chunks[c].len))
  }

  lemma {:induction false} LanesApart(b: Space, tasks: seq<Task>, results: seq<Space>, n: nat, c: nat)
    requires Committed(b) && Fair(tasks) && AllForked(b, tasks, results) && n < |tasks|
    ensures Apart(b, results, n, c)
  {
    assert Forked(b, results[n], tasks[n].target, LaneOf(tasks, n));
    if c in results[n].chunks {
      forall i: nat | i < n && c in results[i].chunks
        ensures c in b.chunks && AtLeast(results[i].chunks[c], b.chunks[c])
        ensures results[n].chunks[c].len > b.chunks[c].len ==> results[i].chunks[c].len == b.chunks[c].len
      {
        assert Forked(b, results[i], tasks[i].target, LaneOf(tasks, i));
        OneGrows(b, tasks, results, n, i, c);
      }
    }
  }

  lemma {:induction false} AbsorbAt(b: Space, results: seq<Space>, n: nat, m: Space, task: Task, c: nat)
    requires n < |results| && HoldsAt(b, results, n, m, c) && Apart(b, results, n, c)
    ensures HoldsAt(b, results, n + 1, Absorb(b, m, task, results[n]), c)
    ensures c in m.chunks ==> AtLeast(Absorb(b, m, task, results[n]).chunks[c], m.chunks[c])
  {
    var r, after := results[n], Absorb(b, m, task, results[n]);
    if c in Grown(b, r) {
      assert after.chunks[c] == results[n].chunks[c];
    } else if c in m.chunks {
      assert after.chunks[c] == m.chunks[c];
      if i: nat :| i < n && c in results[i].chunks && m.chunks[c] == results[i].chunks[c] {
        assert after.chunks[c] == results[i].chunks[c];
      }
    }
  }

  lemma {:induction false} AbsorbHolds(b: Space, tasks: seq<Task>, results: seq<Space>, n: nat, m: Space)
    requires Committed(b) && Fair(tasks) && AllForked(b, tasks, results) && n < |tasks| && Holds(b, results, n, m)
    ensures Holds(b, results, n + 1, Absorb(b, m, tasks[n], results[n]))
    ensures forall c: nat | c in m.chunks :: c in Absorb(b, m, tasks[n], results[n]).chunks && AtLeast(Absorb(b, m, tasks[n], results[n]).chunks[c], m.chunks[c])
  {
    var after := Absorb(b, m, tasks[n], results[n]);
    forall c: nat
      ensures HoldsAt(b, results, n + 1, after, c)
      ensures c in m.chunks ==> c in after.chunks && AtLeast(after.chunks[c], m.chunks[c])
    {
      assert HoldsAt(b, results, n, m, c);
      LanesApart(b, tasks, results, n, c);
      AbsorbAt(b, results, n, m, tasks[n], c);
    }
  }

  /** The chunk an exclusive task hands on is its target's. */
  lemma {:induction false} HandedIsOwn(b: Space, r: Space, target: nat, lane: Lane)
    requires Committed(b) && Forked(b, r, target, lane) && target in r.open
    ensures r.open[target] in r.chunks && r.chunks[r.open[target]].owner == target
  {
  }

  lemma {:induction false} AbsorbCommits(b: Space, m: Space, task: Task, r: Space)
    requires Committed(m) && Within(r) && (task.target in r.open ==> r.open[task.target] in r.chunks && r.chunks[r.open[task.target]].owner == task.target)
    requires forall c: nat | c in m.chunks :: c in Absorb(b, m, task, r).chunks && Absorb(b, m, task, r).chunks[c].owner == m.chunks[c].owner
    requires forall c: nat | c in r.chunks :: c in Absorb(b, m, task, r).chunks && Absorb(b, m, task, r).chunks[c].owner == r.chunks[c].owner
    ensures Committed(Absorb(b, m, task, r))
  {
    var after := Absorb(b, m, task, r);
    forall p | p in after.open
      ensures after.open[p] in after.chunks && after.chunks[after.open[p]].owner == p
    {
      assert (p == task.target && p in r.open && after.open[p] == r.open[p]) || (p in m.open && after.open[p] == m.open[p]);
    }
  }

  /** The base with the spaces of the first `n` tasks taken in. */
  function AfterTasks(b: Space, tasks: seq<Task>, results: seq<Space>, n: nat): Space
    requires n <= |tasks| == |results|
  {
    if n == 0 then b else Absorb(b, AfterTasks(b, tasks, results, n - 1), tasks[n - 1], results[n - 1])
  }

  /** The merge of an epoch: every row of the base and of every task, and a committed space again. */
  method MergeLanes(b: Space, tasks: seq<Task>, results: seq<Space>) returns (m: Space)
    requires Committed(b) && Fair(tasks) && Finished(b, tasks, results)
    ensures m == AfterTasks(b, tasks, results, |tasks|) && Committed(m) && Holds(b, results, |results|, m)
  {
    FinishedIsForked(b, tasks, results);
    m := b;
    for n := 0 to |tasks|
      invariant UpTo(b, tasks, results, n, m)
    {
      StepMerges(b, tasks, results, n, m);
      m := Absorb(b, m, tasks[n], results[n]);
    }
  }

  ghost predicate UpTo(b: Space, tasks: seq<Task>, results: seq<Space>, n: nat, m: Space)
    requires n <= |tasks| == |results|
  {
    m == AfterTasks(b, tasks, results, n) && Committed(m) && Holds(b, results, n, m)
  }

  lemma {:induction false} StepMerges(b: Space, tasks: seq<Task>, results: seq<Space>, n: nat, m: Space)
    requires Committed(b) && Fair(tasks) && AllForked(b, tasks, results) && n < |tasks| && UpTo(b, tasks, results, n, m)
    ensures UpTo(b, tasks, results, n + 1, Absorb(b, m, tasks[n], results[n]))
  {
    AbsorbHolds(b, tasks, results, n, m);
    TakenIn(b, tasks, results, n, Absorb(b, m, tasks[n], results[n]));
    AbsorbCommits(b, m, tasks[n], results[n]);
  }

  lemma {:induction false} TakenIn(b: Space, tasks: seq<Task>, results: seq<Space>, n: nat, m: Space)
    requires Committed(b) && AllForked(b, tasks, results) && n < |tasks| && Holds(b, results, n + 1, m)
    ensures Within(results[n])
    ensures tasks[n].target in results[n].open ==>
              results[n].open[tasks[n].target] in results[n].chunks && results[n].chunks[results[n].open[tasks[n].target]].owner == tasks[n].target
    ensures forall c: nat | c in results[n].chunks :: c in m.chunks && m.chunks[c].owner == results[n].chunks[c].owner
  {
    assert Forked(b, results[n], tasks[n].target, LaneOf(tasks, n)) && Within(results[n]);
    if tasks[n].target in results[n].open {
      HandedIsOwn(b, results[n], tasks[n].target, LaneOf(tasks, n));
    }
    forall c: nat | c in results[n].chunks
      ensures c in m.chunks && m.chunks[c].owner == results[n].chunks[c].owner
    {
      assert HoldsAt(b, results, n + 1, m, c);
    }
  }

  /** After the merge a row is the base's, or exactly one task's. */
  lemma {:induction false} EachRowOnce(b: Space, tasks: seq<Task>, results: seq<Space>, m: Space, c: nat, row: nat)
    requires Committed(b) && Fair(tasks) && Finished(b, tasks, results) && Holds(b, results, |results|, m)
    ensures HasRow(m, c, row) <==> HasRow(b, c, row) || exists i: nat :: i < |tasks| && NewRow(b, results[i], c, row)
    ensures forall i: nat, j: nat | i < |tasks| && j < |tasks| && NewRow(b, results[i], c, row) && NewRow(b, results[j], c, row) :: i == j
  {
    FinishedIsForked(b, tasks, results);
    assert HoldsAt(b, results, |results|, m, c);
    forall i: nat, j: nat | i < |tasks| && j < |tasks| && i != j && NewRow(b, results[i], c, row)
      ensures !NewRow(b, results[j], c, row)
    {
      if c in results[j].chunks {
        OneGrows(b, tasks, results, i, j, c);
      }
    }
    if HasRow(m, c, row) && !HasRow(b, c, row) {
      var i: nat :| i < |results| && c in results[i].chunks && m.chunks[c] == results[i].chunks[c];
      assert NewRow(b, results[i], c, row);
    }
  }

  /** So what the row-wise merge expects of a chunk with two writers holds of every epoch. */
  lemma {:induction false} SharedChunksCommitted<C>(b: Space, tasks: seq<Task>, results: seq<Space>, base: S.Space<C>, batches: seq<S.Batch<C>>)
    requires Committed(b) && Fair(tasks) && Finished(b, tasks, results) && base.Keys == b.chunks.Keys
    requires |batches| == |results| && forall i: nat | i < |batches| :: batches[i].touched <= results[i].chunks.Keys
    ensures S.SharedIsCommitted(base, batches)
  {
    FinishedIsForked(b, tasks, results);
    forall i: nat, j: nat, c | i < j < |batches| && c in batches[i].touched && c in batches[j].touched
      ensures c in base
    {
      OneGrows(b, tasks, results, i, j, c);
    }
  }
}
