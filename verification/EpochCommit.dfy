/** The commit of an epoch on the database, and the counts it moves. */
module EpochCommit {
  import opened Options
  import opened SpaceMerge
  import opened EpochMerge
  import opened Seqs

  // ----- 32-bit counts.

  function WrapAdd(a: int, b: int): nat { (a + b) % WRAP }

  function WrapSub(a: int, b: int): nat { (a - b) % WRAP }

  function Sum(tasks: seq<Task>, f: Task -> int): int
  {
    if tasks == [] then 0 else Sum(tasks[..|tasks| - 1], f) + f(tasks[|tasks| - 1])
  }

  lemma {:induction false} SumLast(tasks: seq<Task>, f: Task -> int, n: nat)
    requires n < |tasks|
    ensures Sum(tasks[..n + 1], f) == Sum(tasks[..n], f) + f(tasks[n])
  {
    assert tasks[..n + 1][..n] == tasks[..n];
  }

  lemma {:induction false} SumRemove(tasks: seq<Task>, f: Task -> int, i: nat)
    requires i < |tasks|
    ensures Sum(tasks, f) == Sum(tasks[..i] + tasks[i + 1..], f) + f(tasks[i])
  {
    var n := |tasks| - 1;
    if i == n {
      assert tasks[..i] + tasks[i + 1..] == tasks[..n];
    } else {
      SumRemove(tasks[..n], f, i);
      var rest := tasks[..i] + tasks[i + 1..];
      assert rest[..n - 1] == tasks[..n][..i] + tasks[..n][i + 1..];
    }
  }

  /** A sum does not depend on the order of the batches. */
  lemma {:induction false} SumOrderFree(a: seq<Task>, b: seq<Task>, f: Task -> int)
    requires multiset(a) == multiset(b)
    ensures Sum(a, f) == Sum(b, f)
    decreases |a|
  {
    assert |a| == |multiset(a)| == |b|;
    if a != [] {
      var n := |a| - 1;
      assert a[n] in multiset(b);
      var i: nat :| i < |b| && b[i] == a[n];
      Seqs.RemovedMultiset(a, n);
      assert a[..n] + a[n + 1..] == a[..n];
      Seqs.RemovedMultiset(b, i);
      SumRemove(b, f, i);
      SumOrderFree(a[..n], b[..i] + b[i + 1..], f);
    }
  }

  function EditsMoved(was: nat): Task -> int { (task: Task) => task.edits - was }

  function PartMoved(part: nat, was: nat): Task -> int
  {
    (task: Task) => if part in task.bumped && part in task.partEdits then task.partEdits[part] - was else 0
  }

  function MintsMoved(space: nat, was: nat): Task -> int { (task: Task) => Grown(task.minted, space, was) }

  function ModuleMintsMoved(space: nat, was: nat): Task -> int { (task: Task) => Grown(task.moduleMinted, space, was) }

  function Grown(minted: seq<nat>, space: nat, was: nat): int { if space < |minted| then minted[space] - was else 0 }

  function EditsIn(parts: map<nat, nat>, part: nat): nat { if part in parts then parts[part] else 0 }

  /** The record is one a lane of the database can have made. */
  ghost predicate Counts(task: Task)
  {
    |task.minted| == 4 && |task.moduleMinted| == 4 && Distinct(task.bumped)
  }

  function ValueBatches(tasks: seq<Task>): seq<Batch<Cells>>
  {
    seq(|tasks|, i requires 0 <= i < |tasks| => tasks[i].values)
  }

  function RegionBatches(tasks: seq<Task>): seq<Batch<Cells>>
  {
    seq(|tasks|, i requires 0 <= i < |tasks| => tasks[i].regions)
  }

  function BlockBatches(tasks: seq<Task>): seq<Batch<Cells>>
  {
    seq(|tasks|, i requires 0 <= i < |tasks| => tasks[i].blocks)
  }

  /** The counts from before the commit are in `counted`, or still in `parts`. */
  ghost predicate Kept(base: map<nat, nat>, parts: map<nat, nat>, counted: map<nat, nat>)
  {
    && (forall p: nat | p in counted :: counted[p] == EditsIn(base, p))
    && (forall p: nat | p !in counted :: EditsIn(parts, p) == EditsIn(base, p))
  }

  /** One batch's edit counts added; `counted` keeps the counts from before the commit. */
  method CountParts(parts0: map<nat, nat>, counted0: map<nat, nat>, task: Task, ghost base: map<nat, nat>)
    returns (parts: map<nat, nat>, counted: map<nat, nat>)
    requires Distinct(task.bumped)
    requires Kept(base, parts0, counted0)
    ensures Kept(base, parts, counted)
    ensures forall p: nat :: EditsIn(parts, p) == Moved(EditsIn(parts0, p), EditsIn(base, p), p, task)
  {
    parts, counted := parts0, counted0;
    for i := 0 to |task.bumped|
      invariant Kept(base, parts, counted)
      invariant forall p: nat | p !in task.bumped[..i] :: EditsIn(parts, p) == EditsIn(parts0, p)
      invariant forall p: nat | p in task.bumped[..i] :: EditsIn(parts, p) == Moved(EditsIn(parts0, p), EditsIn(base, p), p, task)
    {
      var part := task.bumped[i];
      assert task.bumped[..i + 1] == task.bumped[..i] + [part];
      assert part !in task.bumped[..i];
      if part !in task.partEdits {
        continue;
      }
      if part !in counted {
        counted := counted[part := EditsIn(parts, part)];
      }
      parts := parts[part := WrapAdd(EditsIn(parts, part), WrapSub(task.partEdits[part], counted[part]))];
    }
    assert task.bumped[..|task.bumped|] == task.bumped;
  }

  function Moved(now: nat, was: nat, part: nat, task: Task): nat
  {
    if part in task.bumped && part in task.partEdits then WrapAdd(now, WrapSub(task.partEdits[part], was)) else now
  }

  /** A count from before the commit, moved by every batch. */
  function Total(was: nat, tasks: seq<Task>, f: Task -> int): nat { (was + Sum(tasks, f)) % WRAP }

  /** Moving a count batch by batch adds up the moves. */
  lemma {:induction false} TotalStep(was: nat, tasks: seq<Task>, n: nat, f: Task -> int, theirs: nat, before: nat)
    requires n < |tasks| && f(tasks[n]) == theirs - before
    ensures WrapAdd(Total(was, tasks[..n], f), WrapSub(theirs, before)) == Total(was, tasks[..n + 1], f)
  {
    SumLast(tasks, f, n);
  }

  /** Every partition's count is its old one moved by every batch. */
  ghost predicate PartsTotal(base: map<nat, nat>, tasks: seq<Task>, parts: map<nat, nat>)
  {
    forall p: nat :: EditsIn(parts, p) == Total(EditsIn(base, p), tasks, PartMoved(p, EditsIn(base, p)))
  }

  lemma {:induction false} PartStep(base: map<nat, nat>, tasks: seq<Task>, n: nat, before: map<nat, nat>, after: map<nat, nat>)
    requires n < |tasks| && PartsTotal(base, tasks[..n], before)
    requires forall p: nat :: EditsIn(after, p) == Moved(EditsIn(before, p), EditsIn(base, p), p, tasks[n])
    ensures PartsTotal(base, tasks[..n + 1], after)
  {
    forall p: nat
      ensures EditsIn(after, p) == Total(EditsIn(base, p), tasks[..n + 1], PartMoved(p, EditsIn(base, p)))
    {
      OnePartStep(tasks, n, p, EditsIn(base, p));
    }
  }

  lemma {:induction false} OnePartStep(tasks: seq<Task>, n: nat, part: nat, was: nat)
    requires n < |tasks|
    ensures Moved(Total(was, tasks[..n], PartMoved(part, was)), was, part, tasks[n]) == Total(was, tasks[..n + 1], PartMoved(part, was))
  {
    if part in tasks[n].bumped && part in tasks[n].partEdits {
      TotalStep(was, tasks, n, PartMoved(part, was), tasks[n].partEdits[part], was);
    } else {
      SumLast(tasks, PartMoved(part, was), n);
    }
  }

  /** Every space's mint counts are the old ones moved by every batch. */
  ghost predicate MintsTotal(was: seq<nat>, moduleWas: seq<nat>, tasks: seq<Task>, minted: seq<nat>, moduleMinted: seq<nat>)
  {
    && |was| == |moduleWas| == |minted| == |moduleMinted| == 4
    && (forall s: nat | s < 4 :: minted[s] == Total(was[s], tasks, MintsMoved(s, was[s])))
    && (forall s: nat | s < 4 :: moduleMinted[s] == Total(moduleWas[s], tasks, ModuleMintsMoved(s, moduleWas[s])))
  }

  lemma {:induction false} MintStep(was: seq<nat>, moduleWas: seq<nat>, tasks: seq<Task>, n: nat, minted: seq<nat>, moduleMinted: seq<nat>)
    requires n < |tasks| && MintsTotal(was, moduleWas, tasks[..n], minted, moduleMinted) && Counts(tasks[n])
    ensures MintsTotal(was, moduleWas, tasks[..n + 1],
              Advance(minted, tasks[n].minted, was), Advance(moduleMinted, tasks[n].moduleMinted, moduleWas))
  {
    forall s: nat | s < 4
      ensures Advance(minted, tasks[n].minted, was)[s] == Total(was[s], tasks[..n + 1], MintsMoved(s, was[s]))
    {
      TotalStep(was[s], tasks, n, MintsMoved(s, was[s]), tasks[n].minted[s], was[s]);
    }
    forall s: nat | s < 4
      ensures Advance(moduleMinted, tasks[n].moduleMinted, moduleWas)[s]
           == Total(moduleWas[s], tasks[..n + 1], ModuleMintsMoved(s, moduleWas[s]))
    {
      TotalStep(moduleWas[s], tasks, n, ModuleMintsMoved(s, moduleWas[s]), tasks[n].moduleMinted[s], moduleWas[s]);
    }
  }

  /** One space's mint counts after a batch. */
  function Advance(now: seq<nat>, theirs: seq<nat>, was: seq<nat>): (r: seq<nat>)
    requires |now| == |theirs| == |was|
    ensures |r| == |now| && forall s: nat | s < |r| :: r[s] == WrapAdd(now[s], WrapSub(theirs[s], was[s]))
  {
    seq(|now|, s requires 0 <= s < |now| => WrapAdd(now[s], WrapSub(theirs[s], was[s])))
  }

  function MaxTick(tasks: seq<Task>, tick: nat): (r: nat)
    ensures r >= tick && forall i: nat | i < |tasks| :: r >= tasks[i].tick
    ensures r == tick || exists i: nat :: i < |tasks| && r == tasks[i].tick
  {
    if tasks == [] then tick
    else
      var before := MaxTick(tasks[..|tasks| - 1], tick);
      if tasks[|tasks| - 1].tick > before then tasks[|tasks| - 1].tick else before
  }

  datatype Spaces = Spaces(ops: Space<OpCells>, values: Space<Cells>, regions: Space<Cells>, blocks: Space<Cells>)

  /** The tasks ran in lanes over these spaces. */
  ghost predicate Epochs(base: Spaces, tasks: seq<Task>, committed: nat)
  {
    && Epoch(base.ops, OpBatches(tasks), committed)
    && Epoch(base.values, ValueBatches(tasks), committed)
    && Epoch(base.regions, RegionBatches(tasks), committed)
    && Epoch(base.blocks, BlockBatches(tasks), committed)
  }

  /** No two batches edit one row, in any of the four spaces. */
  ghost predicate Disjoint(base: Spaces, tasks: seq<Task>, committed: nat)
  {
    && !OpsClash(base.ops, tasks, committed)
    && !Clash(base.values, ValueBatches(tasks), committed, Never())
    && !Clash(base.regions, RegionBatches(tasks), committed, Never())
    && !Clash(base.blocks, BlockBatches(tasks), committed, Never())
  }

  /** The same from the rows and the logs: no row of a space has two batches that did more to it than replace uses. */
  ghost predicate OneEditorEach(base: Spaces, tasks: seq<Task>, committed: nat)
  {
    && !TwoEditors(base.ops, tasks, committed)
    && !TwoWriters(base.values, ValueBatches(tasks), committed)
    && !TwoWriters(base.regions, RegionBatches(tasks), committed)
    && !TwoWriters(base.blocks, BlockBatches(tasks), committed)
  }

  lemma {:induction false} DisjointIs(base: Spaces, tasks: seq<Task>, committed: nat)
    ensures Disjoint(base, tasks, committed) <==> OneEditorEach(base, tasks, committed)
  {
    OpsClashIs(base.ops, tasks, committed);
    ClashIs(base.values, ValueBatches(tasks), committed);
    ClashIs(base.regions, RegionBatches(tasks), committed);
    ClashIs(base.blocks, BlockBatches(tasks), committed);
  }

  ghost predicate AllMerged(base: Spaces, tasks: seq<Task>, committed: nat, out: Spaces)
  {
    && OpsMerged(base.ops, tasks, committed, out.ops)
    && SpaceMerged(base.values, ValueBatches(tasks), committed, Never(), out.values)
    && SpaceMerged(base.regions, RegionBatches(tasks), committed, Never(), out.regions)
    && SpaceMerged(base.blocks, BlockBatches(tasks), committed, Never(), out.blocks)
  }

  method MergeSpaces(base: Spaces, tasks: seq<Task>, committed: nat) returns (out: Option<Spaces>)
    requires Epochs(base, tasks, committed)
    ensures out.Some? <==> Disjoint(base, tasks, committed)
    ensures out.Some? ==> AllMerged(base, tasks, committed, out.value)
  {
    var ops := CommitOps(base.ops, tasks, committed);
    if ops.None? {
      return None;
    }
    var values := CommitSpace(base.values, ValueBatches(tasks), committed);
    if values.None? {
      return None;
    }
    var regions := CommitSpace(base.regions, RegionBatches(tasks), committed);
    if regions.None? {
      return None;
    }
    var blocks := CommitSpace(base.blocks, BlockBatches(tasks), committed);
    if blocks.None? {
      return None;
    }
    return Some(Spaces(ops.value, values.value, regions.value, blocks.value));
  }

  class Db {
    var spaces: Spaces
    var edits: nat
    var partEdits: map<nat, nat>
    var minted: seq<nat>
    var moduleMinted: seq<nat>
    var tick: nat
    var committed: nat

    /** Every count fits 32 bits. */
    ghost predicate Narrow()
      reads this
    {
      edits < WRAP && NarrowMints() && forall p: nat | p in partEdits :: partEdits[p] < WRAP
    }

    ghost predicate NarrowMints()
      reads this`minted, this`moduleMinted
    {
      |minted| == |moduleMinted| == 4 && forall s: nat | s < 4 :: minted[s] < WRAP && moduleMinted[s] < WRAP
    }

    /**
      Commits the batches: succeeds exactly when no two edit one row, and then
      moves every space and every count; otherwise changes nothing.
     */
    method Merge(tasks: seq<Task>) returns (ok: bool)
      requires Narrow() && Epochs(spaces, tasks, committed) && forall i: nat | i < |tasks| :: Counts(tasks[i])
      modifies this
      ensures ok == Disjoint(old(spaces), tasks, old(committed))
      ensures ok == OneEditorEach(old(spaces), tasks, old(committed))
      ensures !ok ==> unchanged(this)
      ensures ok ==> AllMerged(old(spaces), tasks, old(committed), spaces)
      ensures ok ==> edits == Total(old(edits), tasks, EditsMoved(old(edits)))
      ensures ok ==> PartsTotal(old(partEdits), tasks, partEdits)
      ensures ok ==> MintsTotal(old(minted), old(moduleMinted), tasks, minted, moduleMinted)
      ensures ok ==> committed == MaxTick(tasks, old(tick)) && tick == committed + 1
    {
      DisjointIs(spaces, tasks, committed);
      var merged := MergeSpaces(spaces, tasks, committed);
      if merged.None? {
        return false;
      }
      MoveCounts(tasks);
      spaces := merged.value;
      return true;
    }

    method MoveCounts(tasks: seq<Task>)
      requires Narrow() && forall i: nat | i < |tasks| :: Counts(tasks[i])
      modifies this`edits, this`partEdits, this`minted, this`moduleMinted, this`tick, this`committed
      ensures edits == Total(old(edits), tasks, EditsMoved(old(edits)))
      ensures PartsTotal(old(partEdits), tasks, partEdits)
      ensures MintsTotal(old(minted), old(moduleMinted), tasks, minted, moduleMinted)
      ensures committed == MaxTick(tasks, old(tick)) && tick == committed + 1
    {
      CountEdits(tasks);
      CountMints(tasks);
      committed := tick;
      tick := tick + 1;
    }

    method CountEdits(tasks: seq<Task>)
      requires Narrow() && forall i: nat | i < |tasks| :: Counts(tasks[i])
      modifies this`edits, this`partEdits
      ensures edits == Total(old(edits), tasks, EditsMoved(old(edits)))
      ensures PartsTotal(old(partEdits), tasks, partEdits)
    {
      var was, counted := edits, map[];
      ghost var base := partEdits;
      for n := 0 to |tasks|
        invariant edits == Total(was, tasks[..n], EditsMoved(was))
        invariant Kept(base, partEdits, counted)
        invariant PartsTotal(base, tasks[..n], partEdits)
      {
        TotalStep(was, tasks, n, EditsMoved(was), tasks[n].edits, was);
        edits := WrapAdd(edits, WrapSub(tasks[n].edits, was));
        ghost var before := partEdits;
        partEdits, counted := CountParts(partEdits, counted, tasks[n], base);
        PartStep(base, tasks, n, before, partEdits);
      }
      assert tasks[..|tasks|] == tasks;
    }

    method CountMints(tasks: seq<Task>)
      requires NarrowMints() && forall i: nat | i < |tasks| :: Counts(tasks[i])
      modifies this`minted, this`moduleMinted, this`tick
      ensures MintsTotal(old(minted), old(moduleMinted), tasks, minted, moduleMinted)
      ensures tick == MaxTick(tasks, old(tick))
    {
      var was, moduleWas := minted, moduleMinted;
      for n := 0 to |tasks|
        invariant MintsTotal(was, moduleWas, tasks[..n], minted, moduleMinted)
        invariant tick == MaxTick(tasks[..n], old(tick))
      {
        assert tasks[..n + 1][..n] == tasks[..n];
        tick := if tasks[n].tick > tick then tasks[n].tick else tick;
        MintStep(was, moduleWas, tasks, n, minted, moduleMinted);
        minted := Advance(minted, tasks[n].minted, was);
        moduleMinted := Advance(moduleMinted, tasks[n].moduleMinted, moduleWas);
      }
      assert tasks[..|tasks|] == tasks;
    }
  }
}
