/**
  Whole histories of a store: mints of its own and epochs in any order. Every
  row of the store was minted exactly once, and every epoch starts over a base
  fit for it.
 */
module MintRuns {
  import opened Options
  import opened Minting
  import opened LaneMerge

  ghost predicate Covers(s: Space, log: seq<Event>) { forall c: nat, row: nat | HasRow(s, c, row) :: Event(s.chunks[c].owner, c, row) in log }

  /** The log is all the rows of the space, each once, and the counts are its. */
  ghost predicate Logged(s: Space, log: seq<Event>) { Recorded(s, log) && Covers(s, log) }

  /** The row a mint makes. */
  function Minted(target: nat, id: nat): Event { Event(target, id / CHUNK_ROWS, id % CHUNK_ROWS) }

  lemma {:induction false} MintLogs(s: Space, log: seq<Event>, target: nat, lane: Option<Lane>)
    requires Logged(s, log) && Mint(s, target, lane).Some? && (lane.Some? ==> FreshIndex(s, lane) !in s.chunks)
    ensures var (after, id) := Mint(s, target, lane).value;
            Logged(after, log + [Minted(target, id)])
  {
    var t, index, row := MintShape(s, target, lane);
    IdSplit(index, row);
    MintRecords(s, log, target, lane);
    var after := PushRow(t, target, index);
    forall c: nat, k: nat | HasRow(after, c, k)
      ensures Event(after.chunks[c].owner, c, k) in log + [Event(target, index, row)]
    {
      assert t.chunks[index].owner == target;
      assert HasRow(s, c, k) || (c == index && k == row);
    }
  }

  // ----- One task.

  /** What a task mints, in order. */
  ghost function TaskLog(s: Space, target: nat, lane: Lane, mints: nat): seq<Event>
    requires TaskRun(s, target, lane, mints).Some?
  {
    if mints == 0 then []
    else TaskLog(s, target, lane, mints - 1) + [Minted(target, Mint(TaskRun(s, target, lane, mints - 1).value, target, Some(lane)).value.1)]
  }

  lemma {:induction false} RecordedIsCommitted(s: Space, log: seq<Event>)
    requires Recorded(s, log)
    ensures Committed(s)
  {
  }

  lemma {:induction false} TaskLogs(b: Space, log: seq<Event>, target: nat, lane: Lane, mints: nat)
    requires Logged(b, log) && lane.index < lane.count && TaskRun(ForkSpace(b), target, lane, mints).Some?
    ensures var own := TaskLog(ForkSpace(b), target, lane, mints);
            && Logged(TaskRun(ForkSpace(b), target, lane, mints).value, log + own)
            && |own| == mints && forall e | e in own :: e.part == target
  {
    RecordedIsCommitted(b, log);
    if mints == 0 {
      assert log + [] == log;
    } else {
      TaskLogs(b, log, target, lane, mints - 1);
      TaskRunStaysInLane(b, target, lane, mints - 1);
      TaskMints(b, TaskRun(ForkSpace(b), target, lane, mints - 1).value, log, TaskLog(ForkSpace(b), target, lane, mints - 1), target, lane);
    }
  }

  lemma {:induction false} TaskMints(b: Space, s: Space, log: seq<Event>, own: seq<Event>, target: nat, lane: Lane)
    requires Committed(b) && Forked(b, s, target, lane) && lane.index < lane.count && Logged(s, log + own) && Mint(s, target, Some(lane)).Some?
    ensures var (after, id) := Mint(s, target, Some(lane)).value;
            Logged(after, log + (own + [Minted(target, id)]))
  {
    var last := Minted(target, Mint(s, target, Some(lane)).value.1);
    LaneIndexIsFree(b, s, target, lane);
    MintLogs(s, log + own, target, Some(lane));
    assert log + (own + [last]) == log + own + [last];
  }

  // ----- The merge.

  lemma {:induction false} ModuleEventsSum(a: seq<Event>, b: seq<Event>)
    ensures ModuleEvents(a + b) == ModuleEvents(a) + ModuleEvents(b)
  {
    if b == [] {
      assert a + b == a;
    } else {
      var n := |b| - 1;
      assert (a + b)[..|a| + n] == a + b[..n];
      ModuleEventsSum(a, b[..n]);
    }
  }

  /** What a merge step says of the chunks: nothing is lost, and what is there is the store's or the task's. */
  ghost predicate TakesIn(b: Space, m: Space, r: Space, after: Space)
  {
    && after.used == Max(m.used, r.used)
    && (forall c | c in m.chunks :: c in after.chunks && AtLeast(after.chunks[c], m.chunks[c]))
    && (forall c | c in r.chunks :: c in after.chunks && AtLeast(after.chunks[c], r.chunks[c]))
    && (forall c | c in after.chunks :: (c in m.chunks && after.chunks[c] == m.chunks[c]) || (c in r.chunks && after.chunks[c] == r.chunks[c]))
  }

  /** The rows a task minted are not among those already taken in. */
  ghost predicate NewRows(log: seq<Event>, own: seq<Event>) { forall e, f | e in log && f in own :: Id(e) != Id(f) }

  lemma {:induction false} TakeInRows(b: Space, m: Space, r: Space, after: Space, log: seq<Event>, known: seq<Event>, own: seq<Event>)
    requires Rows(m, known) && Rows(r, log + own) && TakesIn(b, m, r, after)
    ensures Rows(after, known + own)
  {
    assert forall f | f in own :: f in log + own;
  }

  lemma {:induction false} TakeInCovers(b: Space, m: Space, r: Space, after: Space, log: seq<Event>, known: seq<Event>, own: seq<Event>)
    requires Covers(m, known) && Covers(r, log + own) && TakesIn(b, m, r, after) && forall e | e in log :: e in known
    ensures Covers(after, known + own)
  {
    forall c: nat, row: nat | HasRow(after, c, row)
      ensures Event(after.chunks[c].owner, c, row) in known + own
    {
      assert HasRow(m, c, row) || HasRow(r, c, row);
    }
  }

  lemma {:induction false} TakeInDistinct(log: seq<Event>, known: seq<Event>, own: seq<Event>)
    requires Distinct(known) && Distinct(log + own) && NewRows(known, own)
    ensures Distinct(known + own)
  {
    var all := known + own;
    forall i, j | 0 <= i < j < |all|
      ensures Id(all[i]) != Id(all[j])
    {
      if i >= |known| {
        assert all[i] == (log + own)[|log| + i - |known|] && all[j] == (log + own)[|log| + j - |known|];
      } else if j >= |known| {
        assert known[i] in known && own[j - |known|] in own;
      }
    }
  }

  /** The counts move by what the task minted; they do not wrap, as there are fewer ids. */
  lemma {:induction false} TakeInCounts(b: Space, m: Space, task: Task, r: Space, log: seq<Event>, known: seq<Event>, own: seq<Event>)
    requires b.minted == |log| && b.moduleMinted == ModuleEvents(log) && r.minted == |log + own| && r.moduleMinted == ModuleEvents(log + own)
    requires m.minted == |known| && m.moduleMinted == ModuleEvents(known) && ModuleEvents(known + own) <= |known + own| < U32
    ensures var after := Absorb(b, m, task, r);
            after.minted == |known + own| && after.moduleMinted == ModuleEvents(known + own)
    ensures m.minted <= |known + own| && m.moduleMinted <= ModuleEvents(known + own)
  {
    ModuleEventsSum(log, own);
    ModuleEventsSum(known, own);
  }

  lemma {:induction false} TakeInOpens(b: Space, m: Space, task: Task, r: Space, log: seq<Event>, known: seq<Event>, own: seq<Event>)
    requires Counters(m, known) && Counters(r, log + own) && TakesIn(b, m, r, Absorb(b, m, task, r))
    requires Absorb(b, m, task, r).minted == |known + own| && Absorb(b, m, task, r).moduleMinted == ModuleEvents(known + own)
    requires m.minted <= |known + own| && m.moduleMinted <= ModuleEvents(known + own)
    requires r.minted <= |known + own| && r.moduleMinted <= ModuleEvents(known + own)
    ensures Counters(Absorb(b, m, task, r), known + own)
  {
    var after := Absorb(b, m, task, r);
    forall p | p in after.open
      ensures p in after.seen && after.open[p] in after.chunks && after.chunks[after.open[p]].owner == p && after.seen[p] <= Current(after, p)
    {
      assert (p == task.target && p in r.open && after.open[p] == r.open[p] && after.seen[p] == r.seen[p])
          || (p in m.open && after.open[p] == m.open[p] && after.seen[p] == m.seen[p]);
    }
  }

  /** The log so far is the base's and those of some tasks, so it is at least the base's. */
  lemma {:induction false} NoFewer(log: seq<Event>, known: seq<Event>, own: seq<Event>)
    requires log <= known
    ensures |log + own| <= |known + own| && ModuleEvents(log + own) <= ModuleEvents(known + own)
  {
    ModuleEventsSum(log, own);
    ModuleEventsSum(known, own);
    assert known == log + known[|log|..];
    ModuleEventsSum(log, known[|log|..]);
  }

  lemma {:induction false} AbsorbLogs(b: Space, m: Space, task: Task, r: Space, log: seq<Event>, known: seq<Event>, own: seq<Event>)
    requires Logged(b, log) && Logged(m, known) && Logged(r, log + own) && log <= known && NewRows(known, own)
    requires TakesIn(b, m, r, Absorb(b, m, task, r))
    ensures Logged(Absorb(b, m, task, r), known + own)
  {
    var after := Absorb(b, m, task, r);
    TakeInRows(b, m, r, after, log, known, own);
    assert forall e | e in log :: e in known;
    TakeInCovers(b, m, r, after, log, known, own);
    TakeInDistinct(log, known, own);
    CountersFit(after, known + own);
    TakeInCounts(b, m, task, r, log, known, own);
    NoFewer(log, known, own);
    TakeInOpens(b, m, task, r, log, known, own);
  }

  lemma {:induction false} AbsorbTakesIn(b: Space, tasks: seq<Task>, results: seq<Space>, n: nat, m: Space)
    requires Committed(b) && Fair(tasks) && AllForked(b, tasks, results) && n < |tasks| && Holds(b, results, n, m)
    ensures TakesIn(b, m, results[n], Absorb(b, m, tasks[n], results[n]))
  {
    AbsorbHolds(b, tasks, results, n, m);
    var after := Absorb(b, m, tasks[n], results[n]);
    forall c | c in results[n].chunks
      ensures c in after.chunks && AtLeast(after.chunks[c], results[n].chunks[c])
    {
      assert HoldsAt(b, results, n + 1, after, c);
    }
  }

  /** A row of the task's own is not in the base. */
  lemma {:induction false} OwnIsNew(b: Space, r: Space, log: seq<Event>, own: seq<Event>, f: Event)
    requires Covers(b, log) && Recorded(r, log + own) && f in own
    ensures NewRow(b, r, f.chunk, f.row)
  {
    assert f in log + own;
    if HasRow(b, f.chunk, f.row) {
      OwnIsElsewhere(log, own, Event(b.chunks[f.chunk].owner, f.chunk, f.row), f);
    }
  }

  lemma {:induction false} OwnIsElsewhere(log: seq<Event>, own: seq<Event>, e: Event, f: Event)
    requires Distinct(log + own) && e in log && f in own
    ensures Id(e) != Id(f)
  {
    var i: nat :| i < |log| && log[i] == e;
    var j: nat :| j < |own| && own[j] == f;
    assert (log + own)[i] == e && (log + own)[|log| + j] == f;
  }

  lemma {:induction false} OwnIsUnknown(b: Space, tasks: seq<Task>, results: seq<Space>, n: nat, m: Space, log: seq<Event>, known: seq<Event>, own: seq<Event>)
    requires Committed(b) && Fair(tasks) && AllForked(b, tasks, results) && n < |tasks| && Holds(b, results, n, m)
    requires Logged(b, log) && Rows(m, known) && Recorded(results[n], log + own)
    ensures NewRows(known, own)
  {
    forall e, f | e in known && f in own
      ensures Id(e) != Id(f)
    {
      OwnIsNew(b, results[n], log, own, f);
      assert f in log + own;
      LanesApart(b, tasks, results, n, e.chunk);
      assert HoldsAt(b, results, n, m, e.chunk);
      IdSplit(e.chunk, e.row);
      IdSplit(f.chunk, f.row);
    }
  }

  /** The log of the base and of the first `n` tasks. */
  ghost function LogAfter(b: Space, log: seq<Event>, tasks: seq<Task>, n: nat): seq<Event>
    requires n <= |tasks| && forall i: nat | i < n :: TaskRun(ForkSpace(b), tasks[i].target, LaneOf(tasks, i), tasks[i].mints).Some?
  {
    if n == 0 then log
    else LogAfter(b, log, tasks, n - 1) + TaskLog(ForkSpace(b), tasks[n - 1].target, LaneOf(tasks, n - 1), tasks[n - 1].mints)
  }

  /** After the merge every row is in the log of the base or of one task, once. */
  lemma {:induction false} EpochLogs(b: Space, log: seq<Event>, tasks: seq<Task>, results: seq<Space>, n: nat)
    requires Logged(b, log) && Fair(tasks) && Finished(b, tasks, results) && n <= |tasks|
    ensures Logged(AfterTasks(b, tasks, results, n), LogAfter(b, log, tasks, n)) && log <= LogAfter(b, log, tasks, n)
    ensures Holds(b, results, n, AfterTasks(b, tasks, results, n))
    ensures |LogAfter(b, log, tasks, n)| == |log| + MintsOf(tasks[..n])
  {
    if n == 0 {
      assert tasks[..0] == [];
    } else {
      EpochLogs(b, log, tasks, results, n - 1);
      assert tasks[..n][..n - 1] == tasks[..n - 1];
      TaskTakenIn(b, log, tasks, results, n - 1, AfterTasks(b, tasks, results, n - 1), LogAfter(b, log, tasks, n - 1));
    }
  }

  lemma {:induction false} TaskTakenIn(b: Space, log: seq<Event>, tasks: seq<Task>, results: seq<Space>, n: nat, m: Space, known: seq<Event>)
    requires Logged(b, log) && Fair(tasks) && Finished(b, tasks, results) && n < |tasks|
    requires Logged(m, known) && log <= known && Holds(b, results, n, m)
    ensures var own := TaskLog(ForkSpace(b), tasks[n].target, LaneOf(tasks, n), tasks[n].mints);
            Logged(Absorb(b, m, tasks[n], results[n]), known + own) && |own| == tasks[n].mints
    ensures Holds(b, results, n + 1, Absorb(b, m, tasks[n], results[n]))
  {
    var own := TaskLog(ForkSpace(b), tasks[n].target, LaneOf(tasks, n), tasks[n].mints);
    RecordedIsCommitted(b, log);
    FinishedIsForked(b, tasks, results);
    TaskLogs(b, log, tasks[n].target, LaneOf(tasks, n), tasks[n].mints);
    OwnIsUnknown(b, tasks, results, n, m, log, known, own);
    AbsorbTakesIn(b, tasks, results, n, m);
    AbsorbLogs(b, m, tasks[n], results[n], log, known, own);
    AbsorbHolds(b, tasks, results, n, m);
  }

  function MintsOf(tasks: seq<Task>): nat
  {
    if tasks == [] then 0 else MintsOf(tasks[..|tasks| - 1]) + tasks[|tasks| - 1].mints
  }

  // ----- Any number of epochs.

  /** One thing that happens to a store: a mint of its own, or an epoch. */
  datatype Step = OneMint(target: nat) | Epoch(tasks: seq<Task>)

  ghost predicate AllFair(steps: seq<Step>) { forall e | e in steps && e.Epoch? :: Fair(e.tasks) }

  ghost predicate AllRun(b: Space, tasks: seq<Task>)
  {
    forall i: nat | i < |tasks| :: TaskRun(ForkSpace(b), tasks[i].target, LaneOf(tasks, i), tasks[i].mints).Some?
  }

  ghost function Results(b: Space, tasks: seq<Task>): (results: seq<Space>)
    requires AllRun(b, tasks)
    ensures Finished(b, tasks, results)
  {
    seq(|tasks|, i requires 0 <= i < |tasks| => TaskRun(ForkSpace(b), tasks[i].target, LaneOf(tasks, i), tasks[i].mints).value)
  }

  /** One step from a store and the log of its rows; `None` when ids run out. */
  ghost function After(b: Space, log: seq<Event>, step: Step): Option<(Space, seq<Event>)>
  {
    match step
    case OneMint(target) =>
      (match Mint(b, target, None)
       case None => None
       case Some((after, id)) => Some((after, log + [Minted(target, id)])))
    case Epoch(tasks) =>
      if AllRun(b, tasks) then Some((AfterTasks(b, tasks, Results(b, tasks), |tasks|), LogAfter(b, log, tasks, |tasks|))) else None
  }

  /** The store after a history, and everything that was minted in it. */
  ghost function Play(steps: seq<Step>): Option<(Space, seq<Event>)>
  {
    if steps == [] then Some((EmptySpace(), []))
    else
      match Play(steps[..|steps| - 1])
      case None => None
      case Some((s, log)) => After(s, log, steps[|steps| - 1])
  }

  function MintsIn(step: Step): nat { if step.Epoch? then MintsOf(step.tasks) else 1 }

  function Mints(steps: seq<Step>): nat
  {
    if steps == [] then 0 else Mints(steps[..|steps| - 1]) + MintsIn(steps[|steps| - 1])
  }

  lemma {:induction false} AfterLogs(b: Space, log: seq<Event>, step: Step)
    requires Logged(b, log) && (step.Epoch? ==> Fair(step.tasks)) && After(b, log, step).Some?
    ensures var (after, more) := After(b, log, step).value;
            Logged(after, more) && log <= more && |more| == |log| + MintsIn(step)
  {
    match step
    case OneMint(target) => MintLogs(b, log, target, None);
    case Epoch(tasks) =>
      EpochLogs(b, log, tasks, Results(b, tasks), |tasks|);
      assert tasks[..|tasks|] == tasks;
  }

  /** In every history each mint made one row, and every row of the store is one mint's. */
  lemma {:induction false} EveryRowMintedOnce(steps: seq<Step>)
    requires AllFair(steps) && Play(steps).Some?
    ensures Logged(Play(steps).value.0, Play(steps).value.1) && |Play(steps).value.1| == Mints(steps)
  {
    if steps != [] {
      var (s, log) := Play(steps[..|steps| - 1]).value;
      EveryRowMintedOnce(steps[..|steps| - 1]);
      AfterLogs(s, log, steps[|steps| - 1]);
    }
  }

  method RunTask(b: Space, task: Task, lane: Lane) returns (r: Option<Space>)
    ensures r == TaskRun(ForkSpace(b), task.target, lane, task.mints)
  {
    var s := ForkSpace(b);
    for n := 0 to task.mints
      invariant TaskRun(ForkSpace(b), task.target, lane, n) == Some(s)
    {
      var next := Minting.Mint(s, task.target, Some(lane));
      if next.None? {
        NoneStays(ForkSpace(b), task.target, lane, n + 1, task.mints);
        return None;
      }
      s := next.value.0;
    }
    return Some(s);
  }

  lemma {:induction false} NoneStays(s: Space, target: nat, lane: Lane, n: nat, mints: nat)
    requires n <= mints && TaskRun(s, target, lane, n).None?
    ensures TaskRun(s, target, lane, mints).None?
    decreases mints - n
  {
    if n < mints {
      NoneStays(s, target, lane, n + 1, mints);
    }
  }

  /** Runs a history of mints and epochs; every epoch starts over a committed base, and every row was minted once. */
  method RunHistory(steps: seq<Step>) returns (s: Option<Space>)
    requires AllFair(steps)
    ensures s.Some? <==> Play(steps).Some?
    ensures s.Some? ==> s.value == Play(steps).value.0 && Committed(s.value) && Logged(s.value, Play(steps).value.1)
  {
    var space := EmptySpace();
    for i := 0 to |steps|
      invariant Play(steps[..i]).Some? && Play(steps[..i]).value.0 == space
    {
      Committable(steps, i);
      PlayMore(steps, i);
      var next := RunStep(space, Play(steps[..i]).value.1, steps[i]);
      if next.None? {
        NoneStaysNone(steps, i + 1);
        return None;
      }
      space := next.value;
    }
    assert steps[..|steps|] == steps;
    Fits(steps);
    return Some(space);
  }

  lemma {:induction false} Fits(steps: seq<Step>)
    requires AllFair(steps) && Play(steps).Some?
    ensures Committed(Play(steps).value.0) && Logged(Play(steps).value.0, Play(steps).value.1)
  {
    EveryRowMintedOnce(steps);
    RecordedIsCommitted(Play(steps).value.0, Play(steps).value.1);
  }

  lemma {:induction false} PlayMore(steps: seq<Step>, i: nat)
    requires i < |steps| && Play(steps[..i]).Some?
    ensures Play(steps[..i + 1]) == After(Play(steps[..i]).value.0, Play(steps[..i]).value.1, steps[i])
  {
    assert steps[..i + 1][..i] == steps[..i];
  }

  lemma {:induction false} Committable(steps: seq<Step>, i: nat)
    requires AllFair(steps) && i < |steps| && Play(steps[..i]).Some?
    ensures Logged(Play(steps[..i]).value.0, Play(steps[..i]).value.1) && (steps[i].Epoch? ==> Fair(steps[i].tasks))
  {
    assert steps[i] in steps;
    FirstFair(steps, i);
    EveryRowMintedOnce(steps[..i]);
  }

  lemma {:induction false} FirstFair(steps: seq<Step>, i: nat)
    requires AllFair(steps) && i <= |steps|
    ensures AllFair(steps[..i])
  {
    assert forall e | e in steps[..i] :: e in steps;
  }

  lemma {:induction false} NoneStaysNone(steps: seq<Step>, i: nat)
    requires i <= |steps| && Play(steps[..i]).None?
    ensures Play(steps).None?
    decreases |steps| - i
  {
    if i == |steps| {
      assert steps[..i] == steps;
    } else {
      assert steps[..i + 1][..i] == steps[..i];
      NoneStaysNone(steps, i + 1);
    }
  }

  method RunStep(b: Space, ghost log: seq<Event>, step: Step) returns (s: Option<Space>)
    requires Logged(b, log) && (step.Epoch? ==> Fair(step.tasks))
    ensures s.Some? <==> After(b, log, step).Some?
    ensures s.Some? ==> s.value == After(b, log, step).value.0
  {
    match step
    case OneMint(target) =>
      var next := Minting.Mint(b, target, None);
      return if next.None? then None else Some(next.value.0);
    case Epoch(tasks) =>
      RecordedIsCommitted(b, log);
      s := RunEpoch(b, tasks);
  }

  /** Runs the tasks of an epoch in their lanes and merges what they minted. */
  method RunEpoch(b: Space, tasks: seq<Task>) returns (m: Option<Space>)
    requires Committed(b) && Fair(tasks)
    ensures m.Some? <==> AllRun(b, tasks)
    ensures m.Some? ==> m.value == AfterTasks(b, tasks, Results(b, tasks), |tasks|)
  {
    var results: seq<Space> := [];
    for i := 0 to |tasks|
      invariant |results| == i
      invariant forall k: nat | k < i :: TaskRun(ForkSpace(b), tasks[k].target, LaneOf(tasks, k), tasks[k].mints) == Some(results[k])
    {
      var r := RunTask(b, tasks[i], Lane(i, |tasks|, tasks[i].exclusive));
      if r.None? {
        return None;
      }
      results := results + [r.value];
    }
    assert results == Results(b, tasks);
    var merged := MergeLanes(b, tasks, results);
    return Some(merged);
  }
}
