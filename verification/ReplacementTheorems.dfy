/**
  No use replacement is lost in a commit: every live op names, after it, the
  final replacement of each value its writer named.
 */
module ReplacementTheorems {
  import opened Options
  import opened SpaceMerge
  import opened EpochMerge
  import opened EpochTheorems
  import R = Replacements

  // ----- Maps that settle.

  /** No value is a key of two maps, and no map leads to a key. */
  ghost predicate Settled(maps: Maps)
  {
    && (forall i: nat, j: nat, v | i < |maps| && j < |maps| && v in maps[i] && v in maps[j] :: i == j)
    && (forall i: nat, j: nat, v | i < |maps| && j < |maps| && v in maps[i] :: maps[i][v] !in maps[j])
  }

  /** What a value is replaced by in the end: what its one map says, or itself. */
  ghost predicate IsFinal(maps: Maps, v: nat, w: nat)
  {
    && (forall i: nat | i < |maps| && v in maps[i] :: w == maps[i][v])
    && (w != v ==> exists i: nat :: i < |maps| && v in maps[i])
  }

  /** A value no map has is left alone. */
  lemma {:induction false} ReplaceStays(maps: Maps, writer: nat, v: nat)
    requires forall i: nat | i < |maps| && Writer(i) != writer :: v !in maps[i]
    ensures Replace(maps, writer, v) == v
  {
    if maps != [] {
      var n := |maps| - 1;
      assert forall i: nat | i < n :: maps[..n][i] == maps[i];
      ReplaceStays(maps[..n], writer, v);
    }
  }

  /** A value one other batch's map has becomes what that map says. */
  lemma {:induction false} ReplaceMoves(maps: Maps, writer: nat, v: nat, i: nat)
    requires i < |maps| && Writer(i) != writer && v in maps[i] && Settled(maps)
    ensures Replace(maps, writer, v) == maps[i][v]
  {
    var n := |maps| - 1;
    assert forall k: nat | k < n :: maps[..n][k] == maps[k];
    if i == n {
      ReplaceStays(maps[..n], writer, v);
    } else {
      ReplaceMoves(maps[..n], writer, v, i);
    }
  }

  /** Replaying the other batches' maps over a row its writer left clean finishes every value. */
  lemma {:induction false} ReplaceIsFinal(maps: Maps, writer: nat, v: nat)
    requires Settled(maps)
    requires forall i: nat | i < |maps| && Writer(i) == writer :: v !in maps[i]
    ensures IsFinal(maps, v, Replace(maps, writer, v))
  {
    if i: nat :| i < |maps| && v in maps[i] {
      ReplaceMoves(maps, writer, v, i);
      forall j: nat | j < |maps| && v in maps[j]
        ensures j == i
      {
      }
    } else {
      ReplaceStays(maps, writer, v);
    }
  }

  /** The same over a row whose writer only replaced uses in it. */
  lemma {:induction false} ReplaceAfterOwn(maps: Maps, b: nat, v: nat)
    requires Settled(maps) && b < |maps| <= MAX_BATCHES
    ensures IsFinal(maps, v, Replace(maps, Writer(b), R.Apply(maps[b], v)))
  {
    if v in maps[b] {
      ReplaceStays(maps, Writer(b), maps[b][v]);
      forall j: nat | j < |maps| && v in maps[j]
        ensures j == b
      {
      }
    } else {
      ReplaceIsFinal(maps, Writer(b), v);
    }
  }

  // ----- Rows of a disciplined epoch.

  /** `out` is `source` with every operand replaced in the end. */
  ghost predicate FinalOp(maps: Maps, source: Row<OpCells>, out: Row<OpCells>)
  {
    && out.live == source.live && |out.cells.operands| == |source.cells.operands|
    && out.cells == source.cells.(operands := out.cells.operands)
    && forall k: nat | k < |out.cells.operands| :: IsFinal(maps, source.cells.operands[k], out.cells.operands[k])
  }

  /** No operand of the row is a key of a map. */
  ghost predicate Clean(map': map<nat, nat>, row: Row<OpCells>)
  {
    row.live ==> forall k: nat | k < |row.cells.operands| :: row.cells.operands[k] !in map'
  }

  /** A batch's whole op space: what it did not write is the base's, and no live op names a value it retired. */
  ghost predicate Leaves(base: Space<OpCells>, task: Task)
  {
    && (forall index: nat | index !in task.ops.touched && index in base ::
          index in task.ops.chunks && task.ops.chunks[index] == base[index])
    && (forall index: nat, r: nat | RowAt(task.ops.chunks, index, r).Some? ::
          Clean(R.MapOf(task.retargets), RowAt(task.ops.chunks, index, r).value))
  }

  ghost predicate CleanEpoch(base: Space<OpCells>, tasks: seq<Task>, committed: nat)
  {
    && Epoch(base, OpBatches(tasks), committed) && Settled(MapsOf(tasks))
    && forall i: nat | i < |tasks| :: Leaves(base, tasks[i])
  }

  /** A row every map leaves alone is final as it is. */
  lemma {:induction false} CleanIsFinal(maps: Maps, row: Row<OpCells>)
    requires row.live && forall i: nat | i < |maps| :: Clean(maps[i], row)
    ensures FinalOp(maps, row, row)
  {
  }

  lemma {:induction false} OthersFinish(maps: Maps, b: nat, row: Row<OpCells>)
    requires Settled(maps) && b < |maps| <= MAX_BATCHES && row.live && Clean(maps[b], row)
    ensures FinalOp(maps, row, ReplaceRow(maps, Writer(b), row))
  {
    forall k: nat | k < |row.cells.operands|
      ensures IsFinal(maps, row.cells.operands[k], Replace(maps, Writer(b), row.cells.operands[k]))
    {
      ReplaceIsFinal(maps, Writer(b), row.cells.operands[k]);
    }
  }

  lemma {:induction false} AllFinish(maps: Maps, row: Row<OpCells>)
    requires Settled(maps) && |maps| <= MAX_BATCHES
    ensures FinalOp(maps, row, ReplaceRow(maps, RETARGETED, row))
  {
    forall k: nat | k < |row.cells.operands|
      ensures IsFinal(maps, row.cells.operands[k], Replace(maps, RETARGETED, row.cells.operands[k]))
    {
      ReplaceIsFinal(maps, RETARGETED, row.cells.operands[k]);
    }
  }

  lemma {:induction false} OwnThenOthersFinish(maps: Maps, b: nat, base: Row<OpCells>, row: Row<OpCells>)
    requires Settled(maps) && b < |maps| <= MAX_BATCHES && OnlyRetargeted(maps[b], base, row)
    ensures FinalOp(maps, base, ReplaceRow(maps, Writer(b), row))
  {
    forall k: nat | k < |row.cells.operands|
      ensures IsFinal(maps, base.cells.operands[k], Replace(maps, Writer(b), row.cells.operands[k]))
    {
      ReplaceAfterOwn(maps, b, base.cells.operands[k]);
    }
  }

  /** What a live op row is after the commit: its editor's version, or the base's, finished. */
  ghost predicate OpIs(base: Space<OpCells>, tasks: seq<Task>, committed: nat, index: nat, r: nat, out: Row<OpCells>)
  {
    var maps, versions := MapsOf(tasks), AllVersions(OpBatches(tasks), index, r);
    var edit := UneditedBy(maps);
    && (forall i: nat | i < |tasks| && EditsAt(RowAt(base, index, r), versions, committed, edit, i) ::
          FinalOp(maps, versions[i].1.value, out))
    && ((forall i: nat | i < |tasks| :: !EditsAt(RowAt(base, index, r), versions, committed, edit, i)) ==>
          RowAt(base, index, r).Some? && FinalOp(maps, RowAt(base, index, r).value, out))
  }

  /** A row no batch wrote. */
  lemma {:induction false} UnwrittenOp(base: Space<OpCells>, tasks: seq<Task>, committed: nat, index: nat, r: nat)
    requires CleanEpoch(base, tasks, committed) && RowAt(base, index, r).Some? && RowAt(base, index, r).value.live
    requires forall i: nat | i < |tasks| :: !BatchWrote(tasks[i].ops, index, r, committed)
    ensures OpIs(base, tasks, committed, index, r, RowAt(base, index, r).value)
  {
    var row, maps := RowAt(base, index, r).value, MapsOf(tasks);
    forall i: nat | i < |tasks|
      ensures Clean(maps[i], row)
    {
      assert Leaves(base, tasks[i]);
      if index in tasks[i].ops.touched {
        UnwrittenIsBase(base, OpBatches(tasks), committed, index, r, i);
      }
      assert RowAt(tasks[i].ops.chunks, index, r) == Some(row);
    }
    CleanIsFinal(maps, row);
  }

  /** A row taken from the only batch that wrote its chunk. */
  lemma {:induction false} OneOp(base: Space<OpCells>, tasks: seq<Task>, committed: nat, index: nat, r: nat, b: nat)
    requires CleanEpoch(base, tasks, committed) && OnlyWriter(OpBatches(tasks), index, b)
    requires BatchWrote(tasks[b].ops, index, r, committed)
    requires Version(tasks[b].ops, index, r).value.live
    ensures OpIs(base, tasks, committed, index, r, ReplaceRow(MapsOf(tasks), Writer(b), Version(tasks[b].ops, index, r).value))
  {
    var maps, row := MapsOf(tasks), Version(tasks[b].ops, index, r).value;
    var versions := AllVersions(OpBatches(tasks), index, r);
    assert forall i: nat | i < |tasks| && i != b :: versions[i].1 == None;
    if EditsAt(RowAt(base, index, r), versions, committed, UneditedBy(maps), b) {
      assert Leaves(base, tasks[b]) && RowAt(tasks[b].ops.chunks, index, r) == Some(row);
      OthersFinish(maps, b, row);
    } else {
      OwnThenOthersFinish(maps, b, RowAt(base, index, r).value, row);
    }
  }

  /** A row merged from several batches. */
  lemma {:induction false} EachOp(base: Space<OpCells>, tasks: seq<Task>, committed: nat, index: nat, r: nat, cell: Cell<OpCells>)
    requires CleanEpoch(base, tasks, committed) && cell.row.Some? && cell.row.value.live
    requires Fold(RowAt(base, index, r), AllVersions(OpBatches(tasks), index, r), committed, UneditedBy(MapsOf(tasks))) == Some(cell)
    ensures OpIs(base, tasks, committed, index, r, ReplaceRow(MapsOf(tasks), cell.writer, cell.row.value))
  {
    var maps, versions := MapsOf(tasks), AllVersions(OpBatches(tasks), index, r);
    var edit := UneditedBy(maps);
    FoldIsMerge(RowAt(base, index, r), versions, committed, edit);
    assert RowIs(RowAt(base, index, r), versions, committed, edit, cell);
    if i: nat :| i < |tasks| && EditsAt(RowAt(base, index, r), versions, committed, edit, i) {
      EditorIs(base, tasks, committed, index, r, cell, i);
      EditedEach(base, tasks, committed, index, r, cell, i);
      EditedOp(base, tasks, committed, index, r, cell, i, cell.row.value, ReplaceRow(maps, cell.writer, cell.row.value));
    } else {
      UneditedEach(base, tasks, committed, index, r, cell);
    }
  }

  /** An edited row is its editor's. */
  lemma {:induction false} EditorIs(base: Space<OpCells>, tasks: seq<Task>, committed: nat, index: nat, r: nat, cell: Cell<OpCells>, i: nat)
    requires i < |tasks| && RowIs(RowAt(base, index, r), AllVersions(OpBatches(tasks), index, r), committed, UneditedBy(MapsOf(tasks)), cell)
    requires EditsAt(RowAt(base, index, r), AllVersions(OpBatches(tasks), index, r), committed, UneditedBy(MapsOf(tasks)), i)
    ensures cell == Cell(Version(tasks[i].ops, index, r), i + 1) && Version(tasks[i].ops, index, r).Some?
  {
    assert AllVersions(OpBatches(tasks), index, r)[i] == (i, Version(tasks[i].ops, index, r));
  }

  lemma {:induction false} EditedEach(base: Space<OpCells>, tasks: seq<Task>, committed: nat, index: nat, r: nat, cell: Cell<OpCells>, i: nat)
    requires CleanEpoch(base, tasks, committed) && i < |tasks| && Version(tasks[i].ops, index, r).Some? && Version(tasks[i].ops, index, r).value.live
    requires cell == Cell(Version(tasks[i].ops, index, r), i + 1)
    ensures FinalOp(MapsOf(tasks), cell.row.value, ReplaceRow(MapsOf(tasks), cell.writer, cell.row.value))
  {
    EditorFinished(base, tasks, committed, index, r, i);
  }

  lemma {:induction false} UneditedEach(base: Space<OpCells>, tasks: seq<Task>, committed: nat, index: nat, r: nat, cell: Cell<OpCells>)
    requires CleanEpoch(base, tasks, committed) && cell.row.Some? && cell.row.value.live
    requires RowIs(RowAt(base, index, r), AllVersions(OpBatches(tasks), index, r), committed, UneditedBy(MapsOf(tasks)), cell)
    requires forall i: nat | i < |tasks| ::
               !EditsAt(RowAt(base, index, r), AllVersions(OpBatches(tasks), index, r), committed, UneditedBy(MapsOf(tasks)), i)
    ensures OpIs(base, tasks, committed, index, r, ReplaceRow(MapsOf(tasks), cell.writer, cell.row.value))
  {
    var versions := AllVersions(OpBatches(tasks), index, r);
    if SomeWrote(versions, committed) {
      AllFinish(MapsOf(tasks), cell.row.value);
    } else {
      forall i: nat | i < |tasks|
        ensures !BatchWrote(tasks[i].ops, index, r, committed)
      {
        assert !Wrote(versions[i].1, committed);
      }
      UnwrittenOp(base, tasks, committed, index, r);
    }
  }

  lemma {:induction false} EditedOp(base: Space<OpCells>, tasks: seq<Task>, committed: nat, index: nat, r: nat, cell: Cell<OpCells>, b: nat, source: Row<OpCells>, out: Row<OpCells>)
    requires b < |tasks| && cell.row == Some(source) && FinalOp(MapsOf(tasks), source, out)
    requires RowIs(RowAt(base, index, r), AllVersions(OpBatches(tasks), index, r), committed, UneditedBy(MapsOf(tasks)), cell)
    requires EditsAt(RowAt(base, index, r), AllVersions(OpBatches(tasks), index, r), committed, UneditedBy(MapsOf(tasks)), b)
    ensures OpIs(base, tasks, committed, index, r, out)
  {
  }

  lemma {:induction false} VersionIsClean(base: Space<OpCells>, tasks: seq<Task>, committed: nat, index: nat, r: nat, b: nat)
    requires CleanEpoch(base, tasks, committed) && b < |tasks| && Version(tasks[b].ops, index, r).Some?
    ensures Settled(MapsOf(tasks)) && |tasks| <= MAX_BATCHES && Clean(MapsOf(tasks)[b], Version(tasks[b].ops, index, r).value)
  {
    assert Leaves(base, tasks[b]);
    assert RowAt(tasks[b].ops.chunks, index, r) == Version(tasks[b].ops, index, r);
  }

  lemma {:induction false} EditorFinished(base: Space<OpCells>, tasks: seq<Task>, committed: nat, index: nat, r: nat, b: nat)
    requires CleanEpoch(base, tasks, committed) && b < |tasks|
    requires Version(tasks[b].ops, index, r).Some? && Version(tasks[b].ops, index, r).value.live
    ensures FinalOp(MapsOf(tasks), Version(tasks[b].ops, index, r).value, ReplaceRow(MapsOf(tasks), b + 1, Version(tasks[b].ops, index, r).value))
  {
    VersionIsClean(base, tasks, committed, index, r, b);
    RowFinished(MapsOf(tasks), b, Version(tasks[b].ops, index, r).value, ReplaceRow(MapsOf(tasks), b + 1, Version(tasks[b].ops, index, r).value));
  }

  lemma {:induction false} RowFinished(maps: Maps, b: nat, row: Row<OpCells>, out: Row<OpCells>)
    requires Settled(maps) && b < |maps| <= MAX_BATCHES && row.live && Clean(maps[b], row) && out == ReplaceRow(maps, b + 1, row)
    ensures FinalOp(maps, row, out)
  {
    OthersFinish(maps, b, row);
  }

  /** After a commit every live op row is its editor's version, or the base's, with every operand final. */
  lemma {:induction false} MergedOp(base: Space<OpCells>, tasks: seq<Task>, committed: nat, out: Space<OpCells>, index: nat, r: nat)
    requires CleanEpoch(base, tasks, committed) && OpsMerged(base, tasks, committed, out)
    requires RowAt(out, index, r).Some? && RowAt(out, index, r).value.live
    ensures OpIs(base, tasks, committed, index, r, RowAt(out, index, r).value)
  {
    var batches := OpBatches(tasks);
    if index in Touched(batches) {
      assert OpChunkMerged(base, tasks, committed, index, out[index]);
      var m :| ChunkMerged(base, batches, committed, UneditedBy(MapsOf(tasks)), index, m) && Replaced(MapsOf(tasks), committed, m, out[index]);
      MergedOpOf(base, tasks, committed, index, r, m, out[index]);
    } else {
      assert forall i: nat | i < |tasks| :: index in tasks[i].ops.touched ==> index in batches[i].touched;
      UnwrittenOp(base, tasks, committed, index, r);
    }
  }

  lemma {:induction false} MergedOpOf(base: Space<OpCells>, tasks: seq<Task>, committed: nat, index: nat, r: nat, m: Merged<OpCells>, out: Chunk<OpCells>)
    requires CleanEpoch(base, tasks, committed)
    requires ChunkMerged(base, OpBatches(tasks), committed, UneditedBy(MapsOf(tasks)), index, m) && Replaced(MapsOf(tasks), committed, m, out)
    requires r < |out.rows| && out.rows[r].live
    ensures OpIs(base, tasks, committed, index, r, out.rows[r])
  {
    var row := m.chunk.rows[r];
    match m.writers
    case One(b) =>
      if row.stamp > committed {
        OneOp(base, tasks, committed, index, r, b);
      } else {
        UnwrittenIsBase(base, OpBatches(tasks), committed, index, r, b);
        UnwrittenOp(base, tasks, committed, index, r);
      }
    case Each(written) =>
      EachOp(base, tasks, committed, index, r, Cell(Some(row), written[r]));
  }

  // ----- Disciplined logs settle.

  /**
    No value is retired twice in the epoch, none replaces another after it is
    retired, and none is another batch's replacement.
   */
  ghost predicate DisciplinedEpoch(tasks: seq<Task>)
  {
    && (forall i: nat | i < |tasks| :: R.Disciplined(tasks[i].retargets))
    && (forall i: nat, j: nat | i < |tasks| && j < |tasks| && i != j ::
          R.Retired(tasks[i].retargets) !! R.Retired(tasks[j].retargets))
    && (forall i: nat, j: nat | i < |tasks| && j < |tasks| && i != j ::
          R.Replacing(tasks[i].retargets) !! R.Retired(tasks[j].retargets))
  }

  lemma {:induction false} DisciplineSettles(tasks: seq<Task>)
    requires DisciplinedEpoch(tasks)
    ensures Settled(MapsOf(tasks))
  {
    var maps := MapsOf(tasks);
    forall i: nat | i < |tasks|
      ensures maps[i].Keys == R.Retired(tasks[i].retargets)
      ensures forall v | v in maps[i] :: maps[i][v] !in R.Retired(tasks[i].retargets) && maps[i][v] in R.Replacing(tasks[i].retargets)
    {
      R.MapIsFinal(tasks[i].retargets);
    }
    forall i: nat, j: nat, v | i < |maps| && j < |maps| && v in maps[i]
      ensures maps[i][v] !in maps[j] && (v in maps[j] ==> i == j)
    {
      assert i != j ==> R.Replacing(tasks[i].retargets) !! R.Retired(tasks[j].retargets);
      assert i != j ==> R.Retired(tasks[i].retargets) !! R.Retired(tasks[j].retargets);
    }
  }

  /** No live op of any batch names a value that batch retired, and its unwritten chunks are the base's. */
  ghost predicate NamesNoRetired(base: Space<OpCells>, task: Task)
  {
    && (forall index: nat | index !in task.ops.touched && index in base ::
          index in task.ops.chunks && task.ops.chunks[index] == base[index])
    && (forall index: nat, r: nat | RowAt(task.ops.chunks, index, r).Some? ::
          Names(RowAt(task.ops.chunks, index, r).value) !! R.Retired(task.retargets))
  }

  /** The values a live op names. */
  ghost function Names(row: Row<OpCells>): set<nat> { if row.live then set v | v in row.cells.operands else {} }

  lemma {:induction false} LeavesClean(base: Space<OpCells>, task: Task)
    requires NamesNoRetired(base, task)
    ensures Leaves(base, task)
  {
    R.MapKeys(task.retargets);
    forall index: nat, r: nat | RowAt(task.ops.chunks, index, r).Some?
      ensures Clean(R.MapOf(task.retargets), RowAt(task.ops.chunks, index, r).value)
    {
      var row := RowAt(task.ops.chunks, index, r).value;
      assert Names(row) !! R.Retired(task.retargets);
      assert row.live ==> forall k: nat | k < |row.cells.operands| :: row.cells.operands[k] in Names(row);
    }
  }

  /** After a commit of a disciplined epoch no live op names a value any batch retired. */
  lemma {:induction false} NoReplacementLost(base: Space<OpCells>, tasks: seq<Task>, committed: nat, out: Space<OpCells>, index: nat, r: nat, i: nat)
    requires Epoch(base, OpBatches(tasks), committed) && DisciplinedEpoch(tasks)
    requires forall k: nat | k < |tasks| :: NamesNoRetired(base, tasks[k])
    requires OpsMerged(base, tasks, committed, out)
    requires RowAt(out, index, r).Some? && i < |tasks|
    ensures Names(RowAt(out, index, r).value) !! R.Retired(tasks[i].retargets)
  {
    var row, maps := RowAt(out, index, r).value, MapsOf(tasks);
    if row.live {
      DisciplineSettles(tasks);
      forall k: nat | k < |tasks|
        ensures Leaves(base, tasks[k])
      {
        LeavesClean(base, tasks[k]);
      }
      MergedOp(base, tasks, committed, out, index, r);
      R.MapKeys(tasks[i].retargets);
      OpIsClean(base, tasks, committed, index, r, row, i);
    }
  }

  lemma {:induction false} OpIsClean(base: Space<OpCells>, tasks: seq<Task>, committed: nat, index: nat, r: nat, row: Row<OpCells>, i: nat)
    requires Settled(MapsOf(tasks)) && OpIs(base, tasks, committed, index, r, row) && i < |tasks|
    ensures forall v | v in row.cells.operands :: v !in R.MapOf(tasks[i].retargets)
  {
  }

  // ----- The order of the batches does not matter, replacements included.

  /** The same op but for what its operands are. */
  ghost predicate SameButOperands(x: Row<OpCells>, y: Row<OpCells>)
  {
    x.live == y.live && |x.cells.operands| == |y.cells.operands| && y.cells == x.cells.(operands := y.cells.operands)
  }

  /** A merged row is its editor's, or the base's, but for operands. */
  ghost predicate ShapeIs(base: Space<OpCells>, tasks: seq<Task>, committed: nat, index: nat, r: nat, out: Option<Row<OpCells>>)
  {
    var versions, edit := AllVersions(OpBatches(tasks), index, r), UneditedBy(MapsOf(tasks));
    && (forall i: nat | i < |tasks| && EditsAt(RowAt(base, index, r), versions, committed, edit, i) ::
          out.Some? && SameButOperands(versions[i].1.value, out.value))
    && ((forall i: nat | i < |tasks| :: !EditsAt(RowAt(base, index, r), versions, committed, edit, i)) ==>
          out.Some? == RowAt(base, index, r).Some? && (out.Some? ==> SameButOperands(RowAt(base, index, r).value, out.value)))
  }

  lemma {:induction false} ReplaceShape(maps: Maps, writer: nat, row: Row<OpCells>)
    ensures SameButOperands(row, ReplaceRow(maps, writer, row))
  {
  }

  lemma {:induction false} OneShape(base: Space<OpCells>, tasks: seq<Task>, committed: nat, index: nat, r: nat, b: nat, out: Option<Row<OpCells>>)
    requires Epoch(base, OpBatches(tasks), committed) && OnlyWriter(OpBatches(tasks), index, b)
    requires out.Some? == Version(tasks[b].ops, index, r).Some? && (out.Some? ==> SameButOperands(Version(tasks[b].ops, index, r).value, out.value))
    ensures ShapeIs(base, tasks, committed, index, r, out)
  {
    var versions, edit := AllVersions(OpBatches(tasks), index, r), UneditedBy(MapsOf(tasks));
    assert forall i: nat | i < |tasks| && i != b :: versions[i].1 == None;
    if !EditsAt(RowAt(base, index, r), versions, committed, edit, b) && !BatchWrote(tasks[b].ops, index, r, committed) {
      UnwrittenIsBase(base, OpBatches(tasks), committed, index, r, b);
    }
  }

  lemma {:induction false} EachShape(base: Space<OpCells>, tasks: seq<Task>, committed: nat, index: nat, r: nat, cell: Cell<OpCells>, out: Option<Row<OpCells>>)
    requires RowIs(RowAt(base, index, r), AllVersions(OpBatches(tasks), index, r), committed, UneditedBy(MapsOf(tasks)), cell)
    requires out.Some? == cell.row.Some? && (out.Some? ==> SameButOperands(cell.row.value, out.value))
    ensures ShapeIs(base, tasks, committed, index, r, out)
  {
  }

  lemma {:induction false} MergedShape(base: Space<OpCells>, tasks: seq<Task>, committed: nat, out: Space<OpCells>, index: nat, r: nat)
    requires Epoch(base, OpBatches(tasks), committed) && OpsMerged(base, tasks, committed, out)
    ensures ShapeIs(base, tasks, committed, index, r, RowAt(out, index, r))
  {
    var batches := OpBatches(tasks);
    if index in Touched(batches) {
      assert OpChunkMerged(base, tasks, committed, index, out[index]);
      var m :| ChunkMerged(base, batches, committed, UneditedBy(MapsOf(tasks)), index, m) && Replaced(MapsOf(tasks), committed, m, out[index]);
      ChunkShape(base, tasks, committed, index, r, m, out[index]);
    } else {
      assert forall i: nat | i < |tasks| :: index !in batches[i].touched;
    }
  }

  lemma {:induction false} ChunkShape(base: Space<OpCells>, tasks: seq<Task>, committed: nat, index: nat, r: nat, m: Merged<OpCells>, out: Chunk<OpCells>)
    requires Epoch(base, OpBatches(tasks), committed)
    requires ChunkMerged(base, OpBatches(tasks), committed, UneditedBy(MapsOf(tasks)), index, m) && Replaced(MapsOf(tasks), committed, m, out)
    ensures ShapeIs(base, tasks, committed, index, r, At(out.rows, r))
  {
    if r < |out.rows| {
      ReplaceShape(MapsOf(tasks), RowWriter(m.writers, m.chunk.rows[r].stamp, r, committed), m.chunk.rows[r]);
    }
    match m.writers
    case One(b) =>
      OneShape(base, tasks, committed, index, r, b, At(out.rows, r));
    case Each(written) =>
      if r < CHUNK_ROWS {
        FoldIsMerge(RowAt(base, index, r), AllVersions(OpBatches(tasks), index, r), committed, UneditedBy(MapsOf(tasks)));
        EachShape(base, tasks, committed, index, r, Cell(At(m.chunk.rows, r), written[r]), At(out.rows, r));
      } else {
        BeyondShape(base, tasks, committed, index, r);
      }
  }

  lemma {:induction false} BeyondShape(base: Space<OpCells>, tasks: seq<Task>, committed: nat, index: nat, r: nat)
    requires Epoch(base, OpBatches(tasks), committed) && index in base && r >= CHUNK_ROWS
    ensures ShapeIs(base, tasks, committed, index, r, None)
  {
    NoneBeyond(base, OpBatches(tasks), committed, index, r);
    forall i: nat | i < |tasks|
      ensures !EditsAt(RowAt(base, index, r), AllVersions(OpBatches(tasks), index, r), committed, UneditedBy(MapsOf(tasks)), i)
    {
      assert OpBatches(tasks)[i] in OpBatches(tasks);
      assert !BatchWrote(OpBatches(tasks)[i], index, r, committed);
    }
  }

  /** A value has one final replacement, whatever the order of the maps. */
  lemma {:induction false} FinalIsOne(a: Maps, b: Maps, v: nat, x: nat, y: nat)
    requires IsFinal(a, v, x) && IsFinal(b, v, y) && forall m :: m in a <==> m in b
    ensures x == y
  {
    if i: nat :| i < |a| && v in a[i] {
      assert a[i] in b;
      var k: nat :| k < |b| && b[k] == a[i];
    } else {
      forall k: nat | k < |b|
        ensures v !in b[k]
      {
        assert b[k] in b;
      }
    }
  }

  lemma {:induction false} FinalOpIsOne(a: Maps, b: Maps, source: Row<OpCells>, x: Row<OpCells>, y: Row<OpCells>)
    requires FinalOp(a, source, x) && FinalOp(b, source, y) && forall m :: m in a <==> m in b
    ensures x.live == y.live && x.cells == y.cells
  {
    forall k: nat | k < |source.cells.operands|
      ensures x.cells.operands[k] == y.cells.operands[k]
    {
      FinalIsOne(a, b, source.cells.operands[k], x.cells.operands[k], y.cells.operands[k]);
    }
    assert x.cells.operands == y.cells.operands;
  }

  lemma {:induction false} SameMaps(a: seq<Task>, b: seq<Task>)
    requires forall t :: t in a <==> t in b
    ensures forall m :: m in MapsOf(a) <==> m in MapsOf(b)
  {
    forall m
      ensures m in MapsOf(a) ==> m in MapsOf(b)
      ensures m in MapsOf(b) ==> m in MapsOf(a)
    {
      MapIn(a, b, m);
      MapIn(b, a, m);
    }
  }

  lemma {:induction false} MapIn(a: seq<Task>, b: seq<Task>, m: map<nat, nat>)
    requires forall t | t in a :: t in b
    ensures m in MapsOf(a) ==> m in MapsOf(b)
  {
    if m in MapsOf(a) {
      var i: nat :| i < |a| && MapsOf(a)[i] == m;
      assert a[i] in b;
      var k: nat :| k < |b| && b[k] == a[i];
      assert MapsOf(b)[k] == m;
    }
  }

  /** An edit in one order is an edit in the other. */
  lemma {:induction false} EditElsewhere(base: Option<Row<OpCells>>, a: seq<Task>, b: seq<Task>, committed: nat, index: nat, r: nat, i: nat) returns (k: nat)
    requires (forall t :: t in a <==> t in b) && (Retargeted(MapsOf(b)) ==> Retargeted(MapsOf(a))) && i < |a|
    requires EditsAt(base, AllVersions(OpBatches(a), index, r), committed, UneditedBy(MapsOf(a)), i)
    ensures k < |b| && b[k] == a[i] && EditsAt(base, AllVersions(OpBatches(b), index, r), committed, UneditedBy(MapsOf(b)), k)
  {
    assert a[i] in b;
    k :| k < |b| && b[k] == a[i];
  }

  /** What the two orders have in common: one source for the row. */
  lemma {:induction false} SameSource(base: Space<OpCells>, a: seq<Task>, b: seq<Task>, committed: nat, index: nat, r: nat, x: Row<OpCells>, outB: Option<Row<OpCells>>)
    returns (source: Row<OpCells>)
    requires multiset(a) == multiset(b) && OpIs(base, a, committed, index, r, x) && ShapeIs(base, b, committed, index, r, outB)
    ensures FinalOp(MapsOf(a), source, x) && outB.Some? && SameButOperands(source, outB.value)
    ensures OpIs(base, b, committed, index, r, outB.value) ==> FinalOp(MapsOf(b), source, outB.value)
  {
    SameMembers(a, b);
    RetargetedOrderFree(a, b);
    RetargetedOrderFree(b, a);
    var row, va, vb := RowAt(base, index, r), AllVersions(OpBatches(a), index, r), AllVersions(OpBatches(b), index, r);
    if i: nat :| i < |a| && EditsAt(row, va, committed, UneditedBy(MapsOf(a)), i) {
      var k := EditElsewhere(row, a, b, committed, index, r, i);
      source := va[i].1.value;
      assert va[i].1 == vb[k].1;
    } else {
      source := row.value;
      forall k: nat | k < |b|
        ensures !EditsAt(row, vb, committed, UneditedBy(MapsOf(b)), k)
      {
        if EditsAt(row, vb, committed, UneditedBy(MapsOf(b)), k) {
          var i := EditElsewhere(row, b, a, committed, index, r, k);
        }
      }
    }
  }

  /** Under the discipline a reordered commit gives every live op row the same cells, replacements included. */
  lemma {:induction false} CleanCommitOrderFree(base: Space<OpCells>, a: seq<Task>, b: seq<Task>, committed: nat, outA: Space<OpCells>, outB: Space<OpCells>, index: nat, r: nat)
    requires multiset(a) == multiset(b) && CleanEpoch(base, a, committed) && CleanEpoch(base, b, committed)
    requires OpsMerged(base, a, committed, outA) && OpsMerged(base, b, committed, outB)
    requires RowAt(outA, index, r).Some? && RowAt(outA, index, r).value.live
    ensures RowAt(outB, index, r).Some? && RowAt(outB, index, r).value.live
    ensures RowAt(outB, index, r).value.cells == RowAt(outA, index, r).value.cells
  {
    MergedOp(base, a, committed, outA, index, r);
    MergedShape(base, b, committed, outB, index, r);
    var source := SameSource(base, a, b, committed, index, r, RowAt(outA, index, r).value, RowAt(outB, index, r));
    MergedOp(base, b, committed, outB, index, r);
    SameMembers(a, b);
    SameMaps(a, b);
    FinalOpIsOne(MapsOf(a), MapsOf(b), source, RowAt(outA, index, r).value, RowAt(outB, index, r).value);
  }
}
