/**
  Ids and order across epochs. Without lanes ids ascend with time; a merge can
  leave a partition an open chunk that lies below rows the epoch minted. Here
  is when later ids still come out above earlier ones, and when an epoch keeps
  it so.
 */
module EpochOrder {
  import opened Options
  import opened Minting
  import opened LaneMerge
  import opened MintRuns

  ghost predicate Near(a: nat, b: nat) { a == b || a == 0 || b == 0 }

  /** A partition's open chunk is the highest of those its rows must stay above. */
  ghost predicate TopAt(s: Space, p: nat)
    requires p in s.open
  {
    forall c: nat | HasRow(s, c, 0) && Near(s.chunks[c].owner, p) :: c <= s.open[p]
  }

  /** Every open chunk that would be filled further is. */
  ghost predicate Clear(s: Space) { forall p: nat | OpenChunk(s, p, None).Some? :: TopAt(s, p) }

  // ----- Mints after this.

  /** Mints without a lane, from here on. */
  ghost function Continue(s: Space, targets: seq<nat>): Option<(Space, seq<Event>)>
  {
    if targets == [] then Some((s, []))
    else
      match Continue(s, targets[..|targets| - 1])
      case None => None
      case Some((t, own)) =>
        var target := targets[|targets| - 1];
        match Mint(t, target, None)
        case None => None
        case Some((after, id)) => Some((after, own + [Minted(target, id)]))
  }

  ghost predicate Ascending(log: seq<Event>) { forall i, j | 0 <= i < j < |log| && Comparable(log[i], log[j]) :: Id(log[i]) < Id(log[j]) }

  ghost predicate AllBelow(log: seq<Event>, own: seq<Event>) { forall e, f | e in log && f in own && Comparable(e, f) :: Id(e) < Id(f) }

  /** Whatever is minted from here on lies above what it must lie above. */
  ghost predicate OrderGoesOn(s: Space, log: seq<Event>)
  {
    forall targets: seq<nat> | Continue(s, targets).Some? ::
      AllBelow(log, Continue(s, targets).value.1) && Ascending(Continue(s, targets).value.1)
  }

  /** The next row into a partition lies above those it must lie above. */
  lemma {:induction false} NextAbove(s: Space, log: seq<Event>, target: nat, lane: Option<Lane>, t: Space, index: nat, row: nat, e: Event)
    requires Rows(s, log) && Opens(s, target, lane, t, index, row) && e in log && Near(e.part, target)
    requires OpenChunk(s, target, lane).Some? ==> TopAt(s, target)
    requires forall c | c in s.chunks :: c < FreshIndex(s, lane)
    ensures Id(e) < IdAt(index, row) && e.chunk <= index
  {
    assert HasRow(s, e.chunk, 0);
    if OpenChunk(s, target, lane).Some? && e.chunk == index {
      assert e.row < row;
    }
  }

  lemma {:induction false} MintTops(s: Space, target: nat, lane: Option<Lane>, t: Space, index: nat, row: nat)
    requires Opens(s, target, lane, t, index, row) && (OpenChunk(s, target, lane).Some? ==> TopAt(s, target))
    requires forall c | c in s.chunks :: c < FreshIndex(s, lane)
    ensures TopAt(PushRow(t, target, index), target)
  {
  }

  lemma {:induction false} MintClears(s: Space, log: seq<Event>, target: nat, t: Space, index: nat, row: nat)
    requires Recorded(s, log) && Clear(s) && Opens(s, target, None, t, index, row)
    ensures Clear(PushRow(t, target, index))
  {
    var after := PushRow(t, target, index);
    MintTops(s, target, None, t, index, row);
    PushCounts(s, log, target, None, t, index, row);
    PushRows(s, log, target, None, t, index, row);
    forall p: nat | OpenChunk(after, p, None).Some?
      ensures TopAt(after, p)
    {
      if p != target {
        OthersStay(s, log, target, t, index, row, p);
      }
    }
  }

  /** A mint elsewhere leaves a partition's open chunk usable only if it is no neighbour. */
  lemma {:induction false} OthersStay(s: Space, log: seq<Event>, target: nat, t: Space, index: nat, row: nat, p: nat)
    requires Recorded(s, log) && Clear(s) && Opens(s, target, None, t, index, row) && p != target
    requires var after := PushRow(t, target, index);
             && OpenChunk(after, p, None).Some?
             && after.minted == s.minted + 1 && after.moduleMinted == s.moduleMinted + if target == 0 then 1 else 0
    ensures TopAt(PushRow(t, target, index), p)
  {
    var after := PushRow(t, target, index);
    assert p in s.open && s.seen[p] <= Current(s, p);
    assert !Near(p, target);
    assert OpenChunk(s, p, None).Some?;
    assert t.chunks[index].owner == target;
    forall c: nat | HasRow(after, c, 0) && Near(after.chunks[c].owner, p)
      ensures c <= after.open[p]
    {
      assert c != index;
      assert HasRow(s, c, 0);
    }
  }

  lemma {:induction false} ContinueKeeps(s: Space, log: seq<Event>, targets: seq<nat>)
    requires Logged(s, log) && Clear(s) && Continue(s, targets).Some?
    ensures var (after, own) := Continue(s, targets).value;
            Logged(after, log + own) && Clear(after) && AllBelow(log, own) && Ascending(own)
    decreases |targets|
  {
    if targets == [] {
      assert log + [] == log;
    } else {
      var before, target := targets[..|targets| - 1], targets[|targets| - 1];
      ContinueKeeps(s, log, before);
      var (t, own) := Continue(s, before).value;
      MintGoesOn(t, log, own, target);
    }
  }

  lemma {:induction false} MintGoesOn(s: Space, log: seq<Event>, own: seq<Event>, target: nat)
    requires Logged(s, log + own) && Clear(s) && AllBelow(log, own) && Ascending(own) && Mint(s, target, None).Some?
    ensures var (after, id) := Mint(s, target, None).value;
            var all := own + [Minted(target, id)];
            Logged(after, log + all) && Clear(after) && AllBelow(log, all) && Ascending(all)
  {
    var last := Minted(target, Mint(s, target, None).value.1);
    MintLogs(s, log + own, target, None);
    assert log + (own + [last]) == log + own + [last];
    MintIsNext(s, log + own, target);
    LastGoesOn(log, own, last);
  }

  lemma {:induction false} MintIsNext(s: Space, log: seq<Event>, target: nat)
    requires Logged(s, log) && Clear(s) && Mint(s, target, None).Some?
    ensures var (after, id) := Mint(s, target, None).value;
            Clear(after) && forall e | e in log && Comparable(e, Minted(target, id)) :: Id(e) < Id(Minted(target, id))
  {
    var t, index, row := MintShape(s, target, None);
    IdSplit(index, row);
    MintClears(s, log, target, t, index, row);
    forall e | e in log && Comparable(e, Event(target, index, row))
      ensures Id(e) < IdAt(index, row)
    {
      NextAbove(s, log, target, None, t, index, row, e);
    }
  }

  lemma {:induction false} LastGoesOn(log: seq<Event>, own: seq<Event>, last: Event)
    requires AllBelow(log, own) && Ascending(own) && forall e | e in log + own && Comparable(e, last) :: Id(e) < Id(last)
    ensures AllBelow(log, own + [last]) && Ascending(own + [last])
  {
    assert forall e | e in log || e in own :: e in log + own;
    var all := own + [last];
    forall i, j | 0 <= i < j < |all| && Comparable(all[i], all[j])
      ensures Id(all[i]) < Id(all[j])
    {
      assert all[i] == own[i] && own[i] in own;
    }
  }

  /** Later ids come out above earlier ones, whatever is minted, exactly when no usable open chunk lies below a row it must stay above. */
  lemma {:induction false} OrderGoesOnExactly(s: Space, log: seq<Event>)
    requires Logged(s, log)
    ensures OrderGoesOn(s, log) <==> Clear(s)
  {
    if Clear(s) {
      forall targets: seq<nat> | Continue(s, targets).Some?
        ensures AllBelow(log, Continue(s, targets).value.1) && Ascending(Continue(s, targets).value.1)
      {
        ContinueKeeps(s, log, targets);
      }
    } else {
      var p: nat :| OpenChunk(s, p, None).Some? && !TopAt(s, p);
      StaleBreaksOrder(s, log, p);
    }
  }

  lemma {:induction false} StaleBreaksOrder(s: Space, log: seq<Event>, p: nat)
    requires Logged(s, log) && OpenChunk(s, p, None).Some? && !TopAt(s, p)
    ensures !OrderGoesOn(s, log)
  {
    var c: nat :| HasRow(s, c, 0) && Near(s.chunks[c].owner, p) && c > s.open[p];
    var e := Event(s.chunks[c].owner, c, 0);
    assert e in log;
    var index, row := s.open[p], s.chunks[s.open[p]].len;
    IdSplit(index, row);
    var f := Minted(p, IdAt(index, row));
    assert [p][..0] == [];
    assert Continue(s, []) == Some((s, []));
    assert Continue(s, [p]) == Some((PushRow(s, p, index), [] + [f]));
    assert f in [] + [f] && Comparable(e, f) && Id(e) > Id(f);
  }

  // ----- What a task leaves.

  /** After its first mint a task's open chunk is marked as seen now; other partitions are as they were. */
  ghost predicate Leaves(b: Space, r: Space, target: nat, mints: nat)
  {
    && (forall q: nat | q != target :: (q in r.open <==> q in b.open) && (q in r.seen <==> q in b.seen))
    && (forall q: nat | q != target && q in b.open :: r.open[q] == b.open[q])
    && (forall q: nat | q != target && q in b.seen :: r.seen[q] == b.seen[q])
    && (if mints == 0 then r == ForkSpace(b) else target in r.open && target in r.seen && r.seen[target] == Current(r, target))
  }

  lemma {:induction false} MintLeaves(b: Space, s: Space, target: nat, lane: Lane, mints: nat)
    requires Leaves(b, s, target, mints) && Mint(s, target, Some(lane)).Some?
    ensures Leaves(b, Mint(s, target, Some(lane)).value.0, target, mints + 1)
  {
    var index := MintOpens(s, target, lane);
  }

  lemma {:induction false} MintOpens(s: Space, target: nat, lane: Lane) returns (index: nat)
    requires Mint(s, target, Some(lane)).Some?
    ensures var after := Mint(s, target, Some(lane)).value.0;
            after.open == s.open[target := index] && after.seen == s.seen[target := Current(after, target)]
  {
    index := if OpenChunk(s, target, Some(lane)).Some? then OpenChunk(s, target, Some(lane)).value else FreshIndex(s, Some(lane));
    var t := if OpenChunk(s, target, Some(lane)).Some? then s else TakeFresh(s, target, Some(lane));
    assert Mint(s, target, Some(lane)).value.0 == PushRow(t, target, index);
  }

  lemma {:induction false} TaskLeaves(b: Space, target: nat, lane: Lane, mints: nat)
    requires TaskRun(ForkSpace(b), target, lane, mints).Some?
    ensures Leaves(b, TaskRun(ForkSpace(b), target, lane, mints).value, target, mints)
  {
    if mints > 0 {
      TaskLeaves(b, target, lane, mints - 1);
      MintLeaves(b, TaskRun(ForkSpace(b), target, lane, mints - 1).value, target, lane, mints - 1);
    }
  }

  lemma {:induction false} LaneAboveAll(b: Space, s: Space, target: nat, lane: Lane)
    requires Committed(b) && Forked(b, s, target, lane) && lane.index < lane.count
    ensures forall c | c in s.chunks :: c < FreshIndex(s, Some(lane))
  {
    LaneFresh(s, lane);
    assert s.taken * lane.count >= 0;
  }

  /** The base's open chunk, if the task goes on filling it, is the highest. */
  lemma {:induction false} FirstTops(b: Space, target: nat, lane: Lane)
    requires Committed(b) && Clear(b) && OpenChunk(ForkSpace(b), target, Some(lane)).Some?
    ensures TopAt(ForkSpace(b), target)
  {
    assert OpenChunk(b, target, None).Some?;
    assert forall c: nat | HasRow(ForkSpace(b), c, 0) :: HasRow(b, c, 0);
  }

  ghost predicate StaysInLane(b: Space, s: Space, target: nat, lane: Lane)
  {
    Committed(b) && Forked(b, s, target, lane) && forall c | c in s.chunks :: s.chunks[c].len <= CHUNK_ROWS && c < s.used
  }

  lemma {:induction false} LaneMintTops(b: Space, s: Space, target: nat, lane: Lane)
    requires StaysInLane(b, s, target, lane) && lane.index < lane.count && Mint(s, target, Some(lane)).Some?
    requires OpenChunk(s, target, Some(lane)).Some? ==> TopAt(s, target)
    ensures var after := Mint(s, target, Some(lane)).value.0;
            target in after.open && TopAt(after, target)
  {
    LaneAboveAll(b, s, target, lane);
    LaneIndexIsFree(b, s, target, lane);
    var t, index, row := MintShape(s, target, Some(lane));
    MintTops(s, target, Some(lane), t, index, row);
  }

  lemma {:induction false} TaskInLane(b: Space, log: seq<Event>, target: nat, lane: Lane, mints: nat)
    requires Logged(b, log) && lane.index < lane.count && TaskRun(ForkSpace(b), target, lane, mints).Some?
    ensures StaysInLane(b, TaskRun(ForkSpace(b), target, lane, mints).value, target, lane)
  {
    RecordedIsCommitted(b, log);
    TaskRunStaysInLane(b, target, lane, mints);
    TaskLogs(b, log, target, lane, mints);
  }

  /** A task that minted leaves the highest chunk open. */
  lemma {:induction false} TaskTops(b: Space, log: seq<Event>, target: nat, lane: Lane, mints: nat)
    requires Logged(b, log) && Clear(b) && lane.index < lane.count && mints > 0
    requires TaskRun(ForkSpace(b), target, lane, mints).Some?
    ensures var r := TaskRun(ForkSpace(b), target, lane, mints).value;
            target in r.open && TopAt(r, target)
  {
    TaskInLane(b, log, target, lane, mints - 1);
    if mints > 1 {
      TaskTops(b, log, target, lane, mints - 1);
    } else if OpenChunk(ForkSpace(b), target, Some(lane)).Some? {
      FirstTops(b, target, lane);
    }
    LaneMintTops(b, TaskRun(ForkSpace(b), target, lane, mints - 1).value, target, lane);
  }

  lemma {:induction false} LastMintOf(b: Space, log: seq<Event>, target: nat, lane: Lane, mints: nat) returns (s: Space, own: seq<Event>)
    requires Logged(b, log) && Clear(b) && lane.index < lane.count && mints > 0 && TaskRun(ForkSpace(b), target, lane, mints).Some?
    ensures Ready(b, s, log + own, target, lane) && Mint(s, target, Some(lane)).Some?
    ensures TaskRun(ForkSpace(b), target, lane, mints - 1).Some? && own == TaskLog(ForkSpace(b), target, lane, mints - 1)
    ensures TaskLog(ForkSpace(b), target, lane, mints) == own + [Minted(target, Mint(s, target, Some(lane)).value.1)]
  {
    s, own := TaskRun(ForkSpace(b), target, lane, mints - 1).value, TaskLog(ForkSpace(b), target, lane, mints - 1);
    TaskReady(b, log, target, lane, mints - 1);
  }

  lemma {:induction false} TaskStep(b: Space, log: seq<Event>, target: nat, lane: Lane, mints: nat)
    requires Logged(b, log) && Clear(b) && lane.index < lane.count && mints > 0 && TaskRun(ForkSpace(b), target, lane, mints).Some?
    requires InOrder(log, TaskLog(ForkSpace(b), target, lane, mints - 1))
    ensures InOrder(log, TaskLog(ForkSpace(b), target, lane, mints))
  {
    var s, own := LastMintOf(b, log, target, lane, mints);
    TaskGoesOn(b, s, log, own, target, lane);
  }

  /** A task's rows ascend, and lie above the rows of the base that they must lie above. */
  lemma {:induction false} TaskAscends(b: Space, log: seq<Event>, target: nat, lane: Lane, mints: nat)
    requires Logged(b, log) && Clear(b) && lane.index < lane.count && TaskRun(ForkSpace(b), target, lane, mints).Some?
    ensures InOrder(log, TaskLog(ForkSpace(b), target, lane, mints))
  {
    if mints > 0 {
      TaskAscends(b, log, target, lane, mints - 1);
      TaskStep(b, log, target, lane, mints);
    }
  }

  ghost predicate InOrder(log: seq<Event>, own: seq<Event>) { AllBelow(log, own) && Ascending(own) }

  /** What a task's next mint relies on. */
  ghost predicate Ready(b: Space, s: Space, log: seq<Event>, target: nat, lane: Lane)
  {
    StaysInLane(b, s, target, lane) && Logged(s, log) && (OpenChunk(s, target, Some(lane)).Some? ==> TopAt(s, target))
  }

  lemma {:induction false} TaskReady(b: Space, log: seq<Event>, target: nat, lane: Lane, mints: nat)
    requires Logged(b, log) && Clear(b) && lane.index < lane.count && TaskRun(ForkSpace(b), target, lane, mints).Some?
    ensures Ready(b, TaskRun(ForkSpace(b), target, lane, mints).value, log + TaskLog(ForkSpace(b), target, lane, mints), target, lane)
  {
    TaskInLane(b, log, target, lane, mints);
    TaskLogs(b, log, target, lane, mints);
    if mints > 0 {
      TaskTops(b, log, target, lane, mints);
    } else if OpenChunk(ForkSpace(b), target, Some(lane)).Some? {
      FirstTops(b, target, lane);
    }
  }

  lemma {:induction false} TaskGoesOn(b: Space, s: Space, log: seq<Event>, own: seq<Event>, target: nat, lane: Lane)
    requires Ready(b, s, log + own, target, lane) && lane.index < lane.count && Mint(s, target, Some(lane)).Some?
    requires InOrder(log, own)
    ensures InOrder(log, own + [Minted(target, Mint(s, target, Some(lane)).value.1)])
  {
    LaneAboveAll(b, s, target, lane);
    LaneIndexIsFree(b, s, target, lane);
    var t, index, row := MintShape(s, target, Some(lane));
    IdSplit(index, row);
    var last := Event(target, index, row);
    forall e | e in log + own && Comparable(e, last)
      ensures Id(e) < Id(last)
    {
      NextAbove(s, log + own, target, Some(lane), t, index, row, e);
    }
    LastGoesOn(log, own, last);
  }

  // ----- What the merge leaves.

  /** The partition's open chunk is the base's, or what the exclusive task left. */
  ghost predicate OpenIs(b: Space, tasks: seq<Task>, results: seq<Space>, n: nat, m: Space, p: nat)
    requires n <= |tasks| == |results|
  {
    && (p in m.open ==> p in m.seen)
    && ((exists i: nat :: i < n && tasks[i].exclusive && tasks[i].target == p && p in results[i].open && p in results[i].seen
                          && p in m.open && p in m.seen && m.open[p] == results[i].open[p] && m.seen[p] == results[i].seen[p])
        || ((forall i: nat | i < n && tasks[i].exclusive && tasks[i].target == p :: p !in results[i].open || p !in results[i].seen)
            && (p in m.open <==> p in b.open) && (p in m.seen <==> p in b.seen)
            && (p in b.open ==> m.open[p] == b.open[p]) && (p in b.seen ==> m.seen[p] == b.seen[p])))
  }

  lemma {:induction false} OpenAfter(b: Space, tasks: seq<Task>, results: seq<Space>, n: nat, p: nat)
    requires n <= |tasks| == |results| && b.open.Keys == b.seen.Keys
    ensures OpenIs(b, tasks, results, n, AfterTasks(b, tasks, results, n), p)
  {
    if n > 0 {
      OpenAfter(b, tasks, results, n - 1, p);
      var task, r := tasks[n - 1], results[n - 1];
      var m, after := AfterTasks(b, tasks, results, n - 1), AfterTasks(b, tasks, results, n);
      if task.exclusive && task.target == p && p in r.open && p in r.seen {
        assert after.open[p] == r.open[p] && after.seen[p] == r.seen[p];
      } else {
        assert (p in after.open <==> p in m.open) && (p in after.seen <==> p in m.seen);
        assert p in m.open ==> after.open[p] == m.open[p];
        assert p in m.seen ==> after.seen[p] == m.seen[p];
      }
    }
  }

  ghost predicate ModuleMinted(tasks: seq<Task>) { exists i: nat :: i < |tasks| && tasks[i].target == 0 && tasks[i].mints > 0 }

  lemma {:induction false} OwnModuleEvents(own: seq<Event>, target: nat)
    requires forall e | e in own :: e.part == target
    ensures ModuleEvents(own) == if target == 0 then |own| else 0
  {
    if own != [] {
      var n := |own| - 1;
      assert own[n] in own;
      assert forall e | e in own[..n] :: e in own;
      OwnModuleEvents(own[..n], target);
    }
  }

  /** The module's count moves in an epoch exactly when a task mints into the module. */
  lemma {:induction false} ModuleCount(b: Space, log: seq<Event>, tasks: seq<Task>, n: nat)
    requires Logged(b, log) && AllRun(b, tasks) && n <= |tasks|
    ensures ModuleEvents(LogAfter(b, log, tasks, n)) >= ModuleEvents(log)
    ensures ModuleEvents(LogAfter(b, log, tasks, n)) > ModuleEvents(log) <==> ModuleMinted(tasks[..n])
  {
    if n > 0 {
      var k := n - 1;
      ModuleCount(b, log, tasks, k);
      var own := TaskLog(ForkSpace(b), tasks[k].target, LaneOf(tasks, k), tasks[k].mints);
      TaskLogs(b, log, tasks[k].target, LaneOf(tasks, k), tasks[k].mints);
      OwnModuleEvents(own, tasks[k].target);
      ModuleEventsSum(LogAfter(b, log, tasks, k), own);
      ModuleMintedMore(tasks, k);
    }
  }

  lemma {:induction false} ModuleMintedMore(tasks: seq<Task>, k: nat)
    requires k < |tasks|
    ensures ModuleMinted(tasks[..k + 1]) <==> ModuleMinted(tasks[..k]) || (tasks[k].target == 0 && tasks[k].mints > 0)
  {
    var before, after := tasks[..k], tasks[..k + 1];
    if i: nat :| i < |before| && before[i].target == 0 && before[i].mints > 0 {
      assert after[i] == before[i];
    }
    if tasks[k].target == 0 && tasks[k].mints > 0 {
      assert after[k] == tasks[k];
    }
    if i: nat :| i < |after| && after[i].target == 0 && after[i].mints > 0 {
      assert i < k ==> before[i] == after[i];
    }
  }

  ghost function OwnLog(b: Space, tasks: seq<Task>, i: nat): seq<Event>
    requires i < |tasks| && TaskRun(ForkSpace(b), tasks[i].target, LaneOf(tasks, i), tasks[i].mints).Some?
  {
    TaskLog(ForkSpace(b), tasks[i].target, LaneOf(tasks, i), tasks[i].mints)
  }

  /** Whatever is in the log after some tasks is the base's or one task's. */
  lemma {:induction false} LogIs(b: Space, log: seq<Event>, tasks: seq<Task>, n: nat, e: Event)
    requires AllRun(b, tasks) && n <= |tasks| && e in LogAfter(b, log, tasks, n)
    ensures e in log || exists i: nat :: i < n && e in OwnLog(b, tasks, i)
  {
    if n > 0 {
      if e in LogAfter(b, log, tasks, n - 1) {
        LogIs(b, log, tasks, n - 1, e);
      } else {
        assert e in OwnLog(b, tasks, n - 1);
      }
    }
  }

  // ----- When an epoch keeps the order.

  /**
    No task shares a partition whose open chunk could be filled further, unless
    the module mints in the same epoch.
   */
  ghost predicate LeavesOpenAlone(b: Space, tasks: seq<Task>)
  {
    forall i: nat | i < |tasks| && tasks[i].mints > 0 && tasks[i].target != 0 && OpenChunk(b, tasks[i].target, None).Some? ::
      tasks[i].exclusive || ModuleMinted(tasks)
  }

  /** An epoch over a base in order, and the store and the log after its merge. */
  ghost predicate Merged(b: Space, log: seq<Event>, tasks: seq<Task>, results: seq<Space>, m: Space, all: seq<Event>)
  {
    && Logged(b, log) && Clear(b) && Fair(tasks) && (forall i: nat | i < |tasks| && tasks[i].exclusive :: tasks[i].target != 0)
    && Finished(b, tasks, results) && m == AfterTasks(b, tasks, results, |tasks|)
    && AllRun(b, tasks) && all == LogAfter(b, log, tasks, |tasks|)
  }

  ghost predicate Handed(tasks: seq<Task>, p: nat, i: nat) { i < |tasks| && tasks[i].exclusive && tasks[i].target == p && tasks[i].mints > 0 }

  /** The rows an epoch adds are the tasks' own. */
  ghost predicate AddedBy(tasks: seq<Task>, i: nat, e: Event) { i < |tasks| && tasks[i].target == e.part && tasks[i].mints > 0 }

  lemma {:induction false} MergedLogs(b: Space, log: seq<Event>, tasks: seq<Task>, results: seq<Space>, m: Space, all: seq<Event>)
    requires Merged(b, log, tasks, results, m, all)
    ensures Logged(m, all) && Holds(b, results, |tasks|, m) && log <= all && b.moduleMinted <= m.moduleMinted
    ensures m.moduleMinted > b.moduleMinted <==> ModuleMinted(tasks)
  {
    EpochLogs(b, log, tasks, results, |tasks|);
    ModuleCount(b, log, tasks, |tasks|);
    assert tasks[..|tasks|] == tasks;
  }

  lemma {:induction false} AddedIs(b: Space, log: seq<Event>, tasks: seq<Task>, results: seq<Space>, m: Space, all: seq<Event>, e: Event) returns (i: nat)
    requires Merged(b, log, tasks, results, m, all) && e in all && e !in log
    ensures AddedBy(tasks, i, e) && e in OwnLog(b, tasks, i)
  {
    LogIs(b, log, tasks, |tasks|, e);
    i :| i < |tasks| && e in OwnLog(b, tasks, i);
    TaskLogs(b, log, tasks[i].target, LaneOf(tasks, i), tasks[i].mints);
  }

  /** A partition no task had to itself and minted into has the base's open chunk, and it is usable only as it was in the base. */
  lemma {:induction false} UnhandedIsBase(b: Space, log: seq<Event>, tasks: seq<Task>, results: seq<Space>, m: Space, all: seq<Event>, p: nat)
    requires Merged(b, log, tasks, results, m, all) && forall i: nat :: !Handed(tasks, p, i)
    ensures (p in m.open <==> p in b.open) && (p in b.open ==> m.open[p] == b.open[p])
    ensures (p in m.seen <==> p in b.seen) && (p in b.seen ==> m.seen[p] == b.seen[p])
  {
    OpenAfter(b, tasks, results, |tasks|, p);
    if i: nat :| i < |tasks| && tasks[i].exclusive && tasks[i].target == p && p in results[i].open && p in results[i].seen
                 && p in m.open && p in m.seen && m.open[p] == results[i].open[p] && m.seen[p] == results[i].seen[p] {
      assert !Handed(tasks, p, i);
      assert results[i] == ForkSpace(b);
    }
  }

  lemma {:induction false} UsableAsBefore(b: Space, log: seq<Event>, tasks: seq<Task>, results: seq<Space>, m: Space, all: seq<Event>, p: nat)
    requires Merged(b, log, tasks, results, m, all) && (forall i: nat :: !Handed(tasks, p, i)) && OpenChunk(m, p, None).Some?
    ensures OpenChunk(b, p, None) == OpenChunk(m, p, None) && Current(b, p) == Current(m, p)
  {
    MergedLogs(b, log, tasks, results, m, all);
    UnhandedIsBase(b, log, tasks, results, m, all, p);
    assert p in b.open && b.seen[p] <= Current(b, p);
    assert HoldsAt(b, results, |tasks|, m, b.open[p]);
  }

  /** Where an exclusive task minted, the merged store's open chunk is its last. */
  lemma {:induction false} HandedIsLeft(b: Space, log: seq<Event>, tasks: seq<Task>, results: seq<Space>, m: Space, all: seq<Event>, p: nat, i: nat)
    requires Merged(b, log, tasks, results, m, all) && Handed(tasks, p, i)
    ensures p in m.open && p in m.seen && p in results[i].open && m.open[p] == results[i].open[p] && m.seen[p] == b.moduleMinted
    ensures TopAt(results[i], p)
  {
    var own := OwnLog(b, tasks, i);
    TaskLeaves(b, p, LaneOf(tasks, i), tasks[i].mints);
    TaskTops(b, log, p, LaneOf(tasks, i), tasks[i].mints);
    TaskLogs(b, log, p, LaneOf(tasks, i), tasks[i].mints);
    OwnModuleEvents(own, p);
    ModuleEventsSum(log, own);
    OpenAfter(b, tasks, results, |tasks|, p);
  }

  /** An event of the base is a row of the base, and of every task. */
  lemma {:induction false} BaseRow(b: Space, log: seq<Event>, tasks: seq<Task>, results: seq<Space>, e: Event, i: nat)
    requires Logged(b, log) && Fair(tasks) && Finished(b, tasks, results) && i < |tasks| && e in log
    ensures HasRow(results[i], e.chunk, 0) && results[i].chunks[e.chunk].owner == e.part
  {
    RecordedIsCommitted(b, log);
    FinishedIsForked(b, tasks, results);
    assert Forked(b, results[i], tasks[i].target, LaneOf(tasks, i));
  }

  lemma {:induction false} OwnRow(b: Space, log: seq<Event>, tasks: seq<Task>, results: seq<Space>, e: Event, i: nat)
    requires Logged(b, log) && Finished(b, tasks, results) && i < |tasks| && e in OwnLog(b, tasks, i)
    ensures HasRow(results[i], e.chunk, 0) && results[i].chunks[e.chunk].owner == e.part
  {
    TaskLogs(b, log, tasks[i].target, LaneOf(tasks, i), tasks[i].mints);
    assert e in log + OwnLog(b, tasks, i);
  }

  /** With the open chunks left alone, a partition nobody had to itself is in order. */
  lemma {:induction false} UnhandedTops(b: Space, log: seq<Event>, tasks: seq<Task>, results: seq<Space>, m: Space, all: seq<Event>, p: nat, c: nat)
    requires Merged(b, log, tasks, results, m, all) && LeavesOpenAlone(b, tasks) && (forall i: nat :: !Handed(tasks, p, i))
    requires OpenChunk(m, p, None).Some? && HasRow(m, c, 0) && Near(m.chunks[c].owner, p)
    ensures c <= m.open[p]
  {
    MergedLogs(b, log, tasks, results, m, all);
    UsableAsBefore(b, log, tasks, results, m, all, p);
    var e := Event(m.chunks[c].owner, c, 0);
    assert e in all;
    NothingAdded(b, log, tasks, results, m, all, p, e);
    assert HasRow(b, c, 0) && TopAt(b, p);
  }

  /** While its open chunk stays usable no neighbour of the partition gets rows. */
  lemma {:induction false} NothingAdded(b: Space, log: seq<Event>, tasks: seq<Task>, results: seq<Space>, m: Space, all: seq<Event>, p: nat, e: Event)
    requires Merged(b, log, tasks, results, m, all) && LeavesOpenAlone(b, tasks) && (forall i: nat :: !Handed(tasks, p, i))
    requires Logged(m, all) && log <= all && (m.moduleMinted > b.moduleMinted <==> ModuleMinted(tasks))
    requires OpenChunk(b, p, None).Some? && Current(b, p) == Current(m, p) && e in all && Near(e.part, p)
    ensures e in log
  {
    if p == 0 {
      assert all == log;
    } else if e !in log {
      var i := AddedIs(b, log, tasks, results, m, all, e);
      NoNeighbour(b, tasks, p, e, i);
    }
  }

  lemma {:induction false} NoNeighbour(b: Space, tasks: seq<Task>, p: nat, e: Event, i: nat)
    requires LeavesOpenAlone(b, tasks) && OpenChunk(b, p, None).Some? && p != 0 && !ModuleMinted(tasks)
    requires AddedBy(tasks, i, e) && !Handed(tasks, p, i)
    ensures !Near(e.part, p)
  {
  }

  lemma {:induction false} HandedTops(b: Space, log: seq<Event>, tasks: seq<Task>, results: seq<Space>, m: Space, all: seq<Event>, p: nat, i: nat, c: nat)
    requires Merged(b, log, tasks, results, m, all) && Handed(tasks, p, i)
    requires OpenChunk(m, p, None).Some? && HasRow(m, c, 0) && Near(m.chunks[c].owner, p)
    ensures c <= m.open[p]
  {
    MergedLogs(b, log, tasks, results, m, all);
    HandedIsLeft(b, log, tasks, results, m, all, p, i);
    var e := Event(m.chunks[c].owner, c, 0);
    assert e in all;
    if e in log {
      BaseRow(b, log, tasks, results, e, i);
    } else {
      var j := AddedIs(b, log, tasks, results, m, all, e);
      assert tasks[j].target == p;
      assert j == i;
      OwnRow(b, log, tasks, results, e, i);
    }
  }

  /** A shared partition whose open chunk stays usable lies below what the epoch minted into it. */
  lemma {:induction false} SharedIsStale(b: Space, log: seq<Event>, tasks: seq<Task>, results: seq<Space>, m: Space, all: seq<Event>, i: nat)
    requires Merged(b, log, tasks, results, m, all) && i < |tasks| && tasks[i].mints > 0 && tasks[i].target != 0 && !tasks[i].exclusive
    requires OpenChunk(b, tasks[i].target, None).Some? && !ModuleMinted(tasks)
    ensures !Clear(m)
  {
    var p := tasks[i].target;
    MergedLogs(b, log, tasks, results, m, all);
    UnhandedIsBase(b, log, tasks, results, m, all, p);
    var index := b.open[p];
    NobodyGrows(b, log, tasks, results, m, all, i);
    assert OpenChunk(m, p, None) == Some(index);
    var c := FreshRow(b, log, tasks, results, i);
    assert HoldsAt(b, results, |tasks|, m, c);
    assert HasRow(m, c, 0) && m.chunks[c].owner == p && c > index;
    assert !TopAt(m, p);
  }

  lemma {:induction false} NobodyGrows(b: Space, log: seq<Event>, tasks: seq<Task>, results: seq<Space>, m: Space, all: seq<Event>, i: nat)
    requires Merged(b, log, tasks, results, m, all) && Logged(m, all) && Holds(b, results, |tasks|, m)
    requires i < |tasks| && !tasks[i].exclusive && tasks[i].target in b.open
    ensures var index := b.open[tasks[i].target];
            index in m.chunks && m.chunks[index] == b.chunks[index]
  {
    var index := b.open[tasks[i].target];
    RecordedIsCommitted(b, log);
    FinishedIsForked(b, tasks, results);
    assert HoldsAt(b, results, |tasks|, m, index);
    if j: nat :| j < |tasks| && index in results[j].chunks && m.chunks[index] == results[j].chunks[index] {
      assert Forked(b, results[j], tasks[j].target, LaneOf(tasks, j));
    }
  }

  /** A task that shares its target takes a fresh chunk. */
  lemma {:induction false} FreshRow(b: Space, log: seq<Event>, tasks: seq<Task>, results: seq<Space>, i: nat) returns (c: nat)
    requires Logged(b, log) && Fair(tasks) && Finished(b, tasks, results) && i < |tasks| && tasks[i].mints > 0 && !tasks[i].exclusive
    ensures HasRow(results[i], c, 0) && c >= b.used && results[i].chunks[c].owner == tasks[i].target
  {
    RecordedIsCommitted(b, log);
    FinishedIsForked(b, tasks, results);
    var e := FirstOwn(b, log, tasks, results, i);
    c := e.chunk;
    NewIsFresh(b, results[i], tasks[i].target, LaneOf(tasks, i), c, e.row);
  }

  lemma {:induction false} FirstOwn(b: Space, log: seq<Event>, tasks: seq<Task>, results: seq<Space>, i: nat) returns (e: Event)
    requires Logged(b, log) && Finished(b, tasks, results) && i < |tasks| && tasks[i].mints > 0
    ensures NewRow(b, results[i], e.chunk, e.row)
  {
    TaskLogs(b, log, tasks[i].target, LaneOf(tasks, i), tasks[i].mints);
    e := OwnLog(b, tasks, i)[0];
    OwnIsNew(b, results[i], log, OwnLog(b, tasks, i), e);
  }

  lemma {:induction false} NewIsFresh(b: Space, r: Space, target: nat, lane: Lane, c: nat, row: nat)
    requires Forked(b, r, target, lane) && !lane.exclusive && NewRow(b, r, c, row)
    ensures HasRow(r, c, 0) && c >= b.used && r.chunks[c].owner == target
  {
    var t: nat :| t < r.taken && c == b.used + t * lane.count + lane.index;
    assert t * lane.count >= 0;
  }

  /**
    Over a base in order, ids minted after the merge come out above earlier
    ones exactly when the tasks left the usable open chunks alone or minted
    into the module.
   */
  lemma {:induction false} MergeKeepsOrder(b: Space, log: seq<Event>, tasks: seq<Task>, results: seq<Space>, m: Space, all: seq<Event>)
    requires Merged(b, log, tasks, results, m, all)
    ensures Clear(m) <==> LeavesOpenAlone(b, tasks)
    ensures OrderGoesOn(m, all) <==> LeavesOpenAlone(b, tasks)
  {
    MergedLogs(b, log, tasks, results, m, all);
    OrderGoesOnExactly(m, all);
    if LeavesOpenAlone(b, tasks) {
      forall p: nat, c: nat | OpenChunk(m, p, None).Some? && HasRow(m, c, 0) && Near(m.chunks[c].owner, p)
        ensures c <= m.open[p]
      {
        if i: nat :| Handed(tasks, p, i) {
          HandedTops(b, log, tasks, results, m, all, p, i, c);
        } else {
          UnhandedTops(b, log, tasks, results, m, all, p, c);
        }
      }
    } else {
      var i: nat :| i < |tasks| && tasks[i].mints > 0 && tasks[i].target != 0 && OpenChunk(b, tasks[i].target, None).Some?
                    && !tasks[i].exclusive && !ModuleMinted(tasks);
      SharedIsStale(b, log, tasks, results, m, all, i);
    }
  }

  // ----- An epoch that does not.

  /** A store whose partition 1 was minted into once. */
  const Once := Space(1, map[0 := Chunk(1, 1)], map[1 := 0], map[1 := 0], 1, 0, 0, 0)

  const Sharing := [Task(1, false, 1), Task(1, false, 1)]

  function Shared(i: nat): Space
  {
    Space(2 + i, map[0 := Chunk(1, 1), 1 + i := Chunk(1, 1)], map[1 := 1 + i], map[1 := 0], 2, 0, 1, 1)
  }

  const Twice := Space(3, map[0 := Chunk(1, 1), 1 := Chunk(1, 1), 2 := Chunk(1, 1)], map[1 := 0], map[1 := 0], 3, 0, 0, 0)

  /** Each of the two tasks takes the first chunk of its lane. */
  lemma {:induction false} SharingRuns(i: nat)
    requires i < 2
    ensures TaskRun(ForkSpace(Once), 1, Lane(i, 2, false), 1) == Some(Shared(i))
  {
    var lane, s := Lane(i, 2, false), ForkSpace(Once);
    assert OpenChunk(s, 1, Some(lane)).None? && FreshIndex(s, Some(lane)) == 1 + i;
    var t := PushRow(TakeFresh(s, 1, Some(lane)), 1, 1 + i);
    assert t.chunks == Shared(i).chunks && t.open == Shared(i).open && t.seen == Shared(i).seen;
    assert Mint(s, 1, Some(lane)) == Some((Shared(i), IdAt(1 + i, 0)));
    assert TaskRun(s, 1, lane, 1 - 1) == Some(s);
  }

  lemma {:induction false} SharingMerges()
    ensures AfterTasks(Once, Sharing, [Shared(0), Shared(1)], 2) == Twice
  {
    var results := [Shared(0), Shared(1)];
    var one := Absorb(Once, Once, Sharing[0], results[0]);
    assert one.chunks == map[0 := Chunk(1, 1), 1 := Chunk(1, 1)];
    assert AfterTasks(Once, Sharing, results, 0) == Once;
    assert AfterTasks(Once, Sharing, results, 1) == one;
    assert Absorb(Once, one, Sharing[1], results[1]).chunks == Twice.chunks;
  }

  lemma {:induction false} SharingFinishes()
    ensures Finished(Once, Sharing, [Shared(0), Shared(1)])
  {
    SharingRuns(0);
    SharingRuns(1);
  }

  lemma {:induction false} FirstMint()
    ensures Mint(EmptySpace(), 1, None) == Some((Once, 0))
  {
    var s := PushRow(TakeFresh(EmptySpace(), 1, None), 1, 0);
    assert s.chunks == Once.chunks && s.open == Once.open && s.seen == Once.seen;
  }

  lemma {:induction false} LastMint()
    ensures Mint(Twice, 1, None).Some? && Mint(Twice, 1, None).value.1 == IdAt(0, 1)
  {
    assert OpenChunk(Twice, 1, None) == Some(0);
  }

  /**
    A mint, an epoch of two tasks sharing the partition, and a mint: the last
    row goes on filling the old chunk, below the rows of the epoch.
   */
  lemma {:induction false} SharedPartitionBreaksOrder()
    ensures Mint(EmptySpace(), 1, None) == Some((Once, 0))
    ensures Finished(Once, Sharing, [Shared(0), Shared(1)]) && AfterTasks(Once, Sharing, [Shared(0), Shared(1)], 2) == Twice
    ensures Mint(Twice, 1, None).Some? && Mint(Twice, 1, None).value.1 == IdAt(0, 1)
    ensures HasRow(Twice, 1, 0) && Twice.chunks[1].owner == 1 && IdAt(1, 0) > IdAt(0, 1)
  {
    FirstMint();
    SharingFinishes();
    SharingMerges();
    LastMint();
  }
}
